/**
 * The light-sheet generator: one finite analog-output burst per camera
 * trigger, a galvo sawtooth on channel ao0 and a laser gate on ao1.
 *
 * `samples_per_ch` and `laser_delay_samples` are computed in Python from
 * float settings (sample rate times duration); here they are inputs. The
 * DAQmx task is abstracted to whether it exists and the rows last written to
 * its buffer.
 */
module LightsheetGenerator {
  import opened Common

  /** The exceptions that escape `setup_ls`. */
  datatype LsError = AssertionError | ValueError | KeyError | TypeError

  /** A sample pair (galvo volts, laser volts), one row of the buffer. */
  type Row = (real, real)

  /** `numpy.linspace(start, stop, num)` on exact reals. */
  function Linspace(start: real, stop: real, num: nat): (r: seq<real>)
    ensures |r| == num
    ensures num >= 1 ==> r[0] == start
  {
    if num == 0 then []
    else if num == 1 then [start]
    else seq(num, i requires 0 <= i < num => start + (i as real) * ((stop - start) / ((num - 1) as real)))
  }

  /**
   * `wf_galvo` of `task_config`: zeros, the interior `[1:-1]` overwritten
   * with the sawtooth, then the offset added to every sample.
   */
  function GalvoWaveform(n: nat, offset: real, amp: real): (w: seq<real>)
    requires n >= 2
    ensures |w| == n
  {
    var saw := Linspace(-amp / 2.0, amp / 2.0, n - 2);
    seq(n, i requires 0 <= i < n => (if 1 <= i < n - 1 then saw[i - 1] else 0.0) + offset)
  }

  /** `wf_laser` of `task_config`: zeros with the slice `[delay:-1]` set to the laser voltage. */
  function LaserWaveform(n: nat, delay: nat, laserAmp: real): (w: seq<real>)
    requires n >= 2
    ensures |w| == n
  {
    seq(n, i requires 0 <= i < n => if delay <= i < n - 1 then laserAmp else 0.0)
  }

  /** `np.column_stack((wf_galvo, wf_laser))`: row i pairs the galvo and laser samples i. */
  function Waveform(n: nat, delay: nat, galvoOffset: real, galvoAmp: real, laserAmp: real): (rows: seq<Row>)
    requires n >= 2
    ensures |rows| == n
  {
    var g, l := GalvoWaveform(n, galvoOffset, galvoAmp), LaserWaveform(n, delay, laserAmp);
    seq(n, i requires 0 <= i < n => (g[i], l[i]))
  }

  /**
   * The waveform part of `task_config`: both arrays are built in place and
   * stacked column-wise. With fewer than two samples the sawtooth length is
   * negative and numpy raises ValueError.
   */
  method BuildWaveform(n: int, delay: nat, galvoOffset: real, galvoAmp: real, laserAmp: real)
    returns (r: Result<seq<Row>, LsError>)
    ensures r.Err? <==> n < 2
    ensures r.Err? ==> r.error == ValueError
    ensures r.Ok? ==> r.value == Waveform(n, delay, galvoOffset, galvoAmp, laserAmp)
  {
    if n < 2 {
      return Err(ValueError);
    }
    var galvo := new real[n](_ => 0.0);
    SetInterior(galvo, Linspace(-galvoAmp / 2.0, galvoAmp / 2.0, n - 2));
    AddScalar(galvo, galvoOffset);
    assert galvo[..] == GalvoWaveform(n, galvoOffset, galvoAmp);
    var laser := new real[n](_ => 0.0);
    FillToLast(laser, delay, laserAmp);
    assert laser[..] == LaserWaveform(n, delay, laserAmp);
    var rows := ColumnStack(galvo, laser);
    r := Ok(rows);
  }

  /** `a[1:-1] = values` on an array of at least two samples. */
  method SetInterior(a: array<real>, values: seq<real>)
    requires a.Length >= 2 && |values| == a.Length - 2
    modifies a
    ensures forall k | 0 <= k < a.Length :: a[k] == if 1 <= k < a.Length - 1 then values[k - 1] else old(a[k])
  {
    var i := 1;
    while i < a.Length - 1
      invariant 1 <= i <= a.Length - 1
      invariant forall k | 0 <= k < a.Length :: a[k] == if 1 <= k < i then values[k - 1] else old(a[k])
    {
      a[i] := values[i - 1];
      i := i + 1;
    }
  }

  /** `a = a + x`, numpy's broadcast addition of a scalar. */
  method AddScalar(a: array<real>, x: real)
    modifies a
    ensures forall k | 0 <= k < a.Length :: a[k] == old(a[k]) + x
  {
    var i := 0;
    while i < a.Length
      invariant 0 <= i <= a.Length
      invariant forall k | 0 <= k < a.Length :: a[k] == if k < i then old(a[k]) + x else old(a[k])
    {
      a[i] := a[i] + x;
      i := i + 1;
    }
  }

  /** `a[lo:-1] = x` for a non-negative `lo`: every sample from `lo` up to, but not including, the last. */
  method FillToLast(a: array<real>, lo: nat, x: real)
    modifies a
    ensures forall k | 0 <= k < a.Length :: a[k] == if lo <= k < a.Length - 1 then x else old(a[k])
  {
    var i := lo;
    while i < a.Length - 1
      invariant lo <= i && (lo <= a.Length - 1 ==> i <= a.Length - 1)
      invariant forall k | 0 <= k < a.Length :: a[k] == if lo <= k < i then x else old(a[k])
    {
      a[i] := x;
      i := i + 1;
    }
  }

  /** `np.column_stack((g, l))` for two columns of equal length. */
  method ColumnStack(g: array<real>, l: array<real>) returns (rows: seq<Row>)
    requires g.Length == l.Length
    ensures |rows| == g.Length
    ensures forall k | 0 <= k < g.Length :: rows[k] == (g[k], l[k])
  {
    rows := [];
    var i := 0;
    while i < g.Length
      invariant 0 <= i <= g.Length
      invariant |rows| == i
      invariant forall k | 0 <= k < i :: rows[k] == (g[k], l[k])
    {
      rows := rows + [(g[i], l[i])];
      i := i + 1;
    }
  }

  /** A numeric setting; KeyError when absent, TypeError when not a number. */
  function NumSetting(config: map<string, ConfigValue>, key: string): (r: Result<real, LsError>)
    ensures r.Ok? <==> key in config && config[key].Num?
    ensures r.Ok? ==> r.value == config[key].num
    ensures r.Err? ==> r.error == if key in config then TypeError else KeyError
  {
    if key !in config then Err(KeyError)
    else match config[key]
      case Num(x) => Ok(x)
      case _ => Err(TypeError)
  }

  /** The galvo (offset, amplitude) `setup_ls` picks: the left arm for `active_arm == 'left'`, the right arm otherwise. */
  function ArmSettings(config: map<string, ConfigValue>): Result<(real, real), LsError> {
    if "active_arm" !in config then Err(KeyError)
    else
      var left := config["active_arm"] == Text("left");
      var offsetKey := if left then "L-galvo_offsets_volts" else "R-galvo_offsets_volts";
      var ampKey := if left then "L-galvo_amp_volts" else "R-galvo_amp_volts";
      match NumSetting(config, offsetKey)
      case Err(e) => Err(e)
      case Ok(offset) =>
        match NumSetting(config, ampKey)
        case Err(e) => Err(e)
        case Ok(amp) => Ok((offset, amp))
  }

  /** The laser-voltage assertion at the top of `setup_ls`. */
  function LaserCheck(config: map<string, ConfigValue>): Result<real, LsError> {
    match NumSetting(config, "laser_pow_volts")
    case Err(e) => Err(e)
    case Ok(pow) =>
      match NumSetting(config, "laser_max_volts")
      case Err(e) => Err(e)
      case Ok(max) => if pow <= max then Ok(pow) else Err(AssertionError)
  }

  /** The module-level `config` the generator starts with. */
  const DEFAULT_CONFIG: map<string, ConfigValue> := map[
    "swipe_duration_ms" := Num(1.0),
    "L-galvo_offsets_volts" := Num(-0.32), "R-galvo_offsets_volts" := Num(0.45),
    "L-galvo_amp_volts" := Num(0.60), "R-galvo_amp_volts" := Num(0.60),
    "laser_max_volts" := Num(1.0), "laser_pow_volts" := Num(1.0),
    "arduino_switcher_port" := Text("COM6"),
    "active_arm" := Text("left"), "switch_auto" := Flag(true), "switch_every_n_pulses" := Num(100.0),
    "DAQ_trig_in_ch" := Text("/Dev1/PFI0"), "DAQ_AO_ch" := Text("/Dev1/ao0:1"),
    "DAQ_sample_rate_Hz" := Num(20000.0)
  ]

  /**
   * What `setup_ls` does: raise (the laser assertion, a missing or
   * non-numeric setting, too few samples), do nothing because there is no
   * task, or write the rows of the selected arm's waveform.
   */
  function SetupOutcome(config: map<string, ConfigValue>, hasTask: bool, n: int, delay: nat)
    : Result<Option<seq<Row>>, LsError>
  {
    match LaserCheck(config)
    case Err(e) => Err(e)
    case Ok(pow) =>
      if !hasTask then Ok(None)
      else match ArmSettings(config)
        case Err(e) => Err(e)
        case Ok(arm) => if n < 2 then Err(ValueError) else Ok(Some(Waveform(n, delay, arm.0, arm.1, pow)))
  }

  class LightsheetGenerator {
    var config: map<string, ConfigValue>
    /** Whether `daqmx_task` is set. */
    var hasTask: bool
    var initialized: bool
    var status: string
    /** The rows last written to the task's output buffer. */
    var buffer: seq<Row>

    constructor()
      ensures config == DEFAULT_CONFIG && !hasTask && !initialized && status == "OFF" && buffer == []
    {
      config := DEFAULT_CONFIG;
      hasTask := false;
      initialized := false;
      status := "OFF";
      buffer := [];
    }

    /** `create_daqmx_task`: the task exists from now on. */
    method CreateDaqmxTask()
      modifies this`hasTask
      ensures hasTask
    {
      hasTask := true;
    }

    /** `setup_ls`, with the outcome `SetupOutcome` describes. */
    method SetupLs(samplesPerCh: int, laserDelay: nat) returns (r: Result<(), LsError>)
      modifies this`buffer, this`status, this`initialized
      ensures r == match SetupOutcome(config, hasTask, samplesPerCh, laserDelay)
        case Err(e) => Err(e)
        case Ok(_) => Ok(())
      ensures var o := SetupOutcome(config, hasTask, samplesPerCh, laserDelay);
        o.Ok? && o.value.Some? ==> buffer == o.value.value && status == "ON" && initialized
      ensures var o := SetupOutcome(config, hasTask, samplesPerCh, laserDelay);
        !(o.Ok? && o.value.Some?) ==> buffer == old(buffer) && status == old(status) && initialized == old(initialized)
    {
      var laser := LaserCheck(config);
      if laser.Err? {
        return Err(laser.error);
      }
      if !hasTask {
        return Ok(());
      }
      var arm := ArmSettings(config);
      if arm.Err? {
        return Err(arm.error);
      }
      var w := BuildWaveform(samplesPerCh, laserDelay, arm.value.0, arm.value.1, laser.value);
      if w.Err? {
        return Err(w.error);
      }
      buffer := w.value;
      status := "ON";
      initialized := true;
      r := Ok(());
    }

    /** `update_config`: only an existing key is written, then the light sheet is set up again. */
    method UpdateConfig(key: string, value: ConfigValue, samplesPerCh: int, laserDelay: nat)
      returns (r: Result<(), LsError>)
      modifies this`config, this`buffer, this`status, this`initialized
      ensures config == if key in old(config) then old(config)[key := value] else old(config)
      ensures config.Keys == old(config.Keys)
      ensures r == match SetupOutcome(config, hasTask, samplesPerCh, laserDelay)
        case Err(e) => Err(e)
        case Ok(_) => Ok(())
      ensures var o := SetupOutcome(config, hasTask, samplesPerCh, laserDelay);
        o.Ok? && o.value.Some? ==> buffer == o.value.value && status == "ON" && initialized
      ensures var o := SetupOutcome(config, hasTask, samplesPerCh, laserDelay);
        !(o.Ok? && o.value.Some?) ==> buffer == old(buffer) && status == old(status) && initialized == old(initialized)
    {
      if key in config {
        config := config[key := value];
      }
      r := SetupLs(samplesPerCh, laserDelay);
    }
  }

  // ---------------------------------------------------------------------
  // Properties

  /** A real-arithmetic step: (m - 1) equal steps from `start` land on `stop`. */
  lemma StepsReachStop(start: real, stop: real, m: nat)
    requires m >= 2
    ensures start + ((m - 1) as real) * ((stop - start) / ((m - 1) as real)) == stop
  {
  }

  /** linspace starts at `start`, ends at `stop` and is evenly spaced. */
  lemma LinspaceShape(start: real, stop: real, num: nat)
    ensures num >= 2 ==> Linspace(start, stop, num)[num - 1] == stop
    ensures num >= 2 ==> forall i | 0 <= i < num - 1 ::
      Linspace(start, stop, num)[i + 1] - Linspace(start, stop, num)[i] == (stop - start) / ((num - 1) as real)
  {
    if num >= 2 {
      StepsReachStop(start, stop, num);
    }
  }

  /** With `start <= stop` linspace never decreases. */
  lemma LinspaceMonotone(start: real, stop: real, num: nat)
    requires start <= stop
    ensures forall i, j | 0 <= i <= j < num :: Linspace(start, stop, num)[i] <= Linspace(start, stop, num)[j]
  {
    if num >= 2 {
      var step := (stop - start) / ((num - 1) as real);
      assert step >= 0.0;
      forall i, j | 0 <= i <= j < num
        ensures Linspace(start, stop, num)[i] <= Linspace(start, stop, num)[j]
      {
        assert Linspace(start, stop, num)[i] == start + (i as real) * step;
        assert Linspace(start, stop, num)[j] == start + (j as real) * step;
        assert (i as real) * step <= (j as real) * step;
      }
    }
  }

  /** First and last galvo samples sit at the offset. */
  lemma GalvoEndpoints(n: nat, offset: real, amp: real)
    requires n >= 2
    ensures GalvoWaveform(n, offset, amp)[0] == offset
    ensures GalvoWaveform(n, offset, amp)[n - 1] == offset
  {
  }

  /**
   * The interior sweeps from offset - amp/2 (sample 1) to offset + amp/2
   * (sample n-2); a single interior sample (n = 3) is linspace's start alone.
   */
  lemma GalvoSweepEnds(n: nat, offset: real, amp: real)
    requires n >= 3
    ensures GalvoWaveform(n, offset, amp)[1] == offset - amp / 2.0
    ensures n >= 4 ==> GalvoWaveform(n, offset, amp)[n - 2] == offset + amp / 2.0
  {
    var saw := Linspace(-amp / 2.0, amp / 2.0, n - 2);
    LinspaceShape(-amp / 2.0, amp / 2.0, n - 2);
    assert GalvoWaveform(n, offset, amp)[n - 2] == saw[n - 3] + offset;
  }

  /** Consecutive interior samples differ by amp / (n - 3). */
  lemma GalvoSweepSteps(n: nat, offset: real, amp: real)
    requires n >= 4
    ensures forall i | 1 <= i < n - 2 ::
      GalvoWaveform(n, offset, amp)[i + 1] - GalvoWaveform(n, offset, amp)[i] == amp / ((n - 3) as real)
  {
    var saw := Linspace(-amp / 2.0, amp / 2.0, n - 2);
    var w := GalvoWaveform(n, offset, amp);
    LinspaceShape(-amp / 2.0, amp / 2.0, n - 2);
    assert amp / 2.0 - -amp / 2.0 == amp;
    forall i | 1 <= i < n - 2
      ensures w[i + 1] - w[i] == amp / ((n - 3) as real)
    {
      assert w[i + 1] - w[i] == saw[i] - saw[i - 1];
    }
  }

  /** With amp >= 0 the interior never decreases. */
  lemma GalvoSweepMonotone(n: nat, offset: real, amp: real)
    requires n >= 2 && amp >= 0.0
    ensures forall i, j | 1 <= i <= j < n - 1 ::
      GalvoWaveform(n, offset, amp)[i] <= GalvoWaveform(n, offset, amp)[j]
  {
    var saw := Linspace(-amp / 2.0, amp / 2.0, n - 2);
    var w := GalvoWaveform(n, offset, amp);
    LinspaceMonotone(-amp / 2.0, amp / 2.0, n - 2);
    forall i, j | 1 <= i <= j < n - 1
      ensures w[i] <= w[j]
    {
      assert saw[i - 1] <= saw[j - 1];
    }
  }

  /** The laser is off before the delay and on the last sample, and on in between. */
  lemma LaserGate(n: nat, delay: nat, laserAmp: real)
    requires n >= 2
    ensures forall i | 0 <= i < n && i < delay :: LaserWaveform(n, delay, laserAmp)[i] == 0.0
    ensures LaserWaveform(n, delay, laserAmp)[n - 1] == 0.0
    ensures forall i | delay <= i < n - 1 :: LaserWaveform(n, delay, laserAmp)[i] == laserAmp
  {
  }

  /** With a delay of at least one sample the laser is only on while the galvo is inside its sweep range. */
  lemma LaserOnlyDuringSweep(n: nat, delay: nat, offset: real, amp: real, laserAmp: real, i: nat)
    requires n >= 3 && delay >= 1 && amp >= 0.0 && i < n
    requires LaserWaveform(n, delay, laserAmp)[i] != 0.0
    ensures 1 <= i < n - 1
    ensures offset - amp / 2.0 <= GalvoWaveform(n, offset, amp)[i] <= offset + amp / 2.0
  {
    GalvoSweepEnds(n, offset, amp);
    GalvoSweepMonotone(n, offset, amp);
  }

  /** The default configuration passes the laser check and selects the left arm. */
  lemma DefaultSettings()
    ensures LaserCheck(DEFAULT_CONFIG) == Ok(1.0)
    ensures ArmSettings(DEFAULT_CONFIG) == Ok((-0.32, 0.60))
  {
    assert "L" + "-galvo_offsets_volts" == "L-galvo_offsets_volts";
    assert "L" + "-galvo_amp_volts" == "L-galvo_amp_volts";
  }

  /** A laser voltage above its maximum is refused with AssertionError, with or without a task, before anything is written. */
  lemma LaserTooHigh(config: map<string, ConfigValue>, hasTask: bool, n: int, delay: nat)
    requires "laser_pow_volts" in config && config["laser_pow_volts"].Num?
    requires "laser_max_volts" in config && config["laser_max_volts"].Num?
    ensures LaserCheck(config).Ok? <==> config["laser_pow_volts"].num <= config["laser_max_volts"].num
    ensures config["laser_pow_volts"].num > config["laser_max_volts"].num ==>
      SetupOutcome(config, hasTask, n, delay) == Err(AssertionError)
  {
  }

  /** Without a task a passing laser check leaves everything as it was. */
  lemma NoTaskNoWrite(config: map<string, ConfigValue>, n: int, delay: nat)
    requires LaserCheck(config).Ok?
    ensures SetupOutcome(config, false, n, delay) == Ok(None)
  {
  }

  /**
   * 'left' selects the L settings and any other arm value the R settings; the
   * rows written are the waveform for that arm and the laser voltage.
   */
  lemma ArmSelection(config: map<string, ConfigValue>, n: int, delay: nat)
    requires LaserCheck(config).Ok? && n >= 2 && "active_arm" in config
    requires "L-galvo_offsets_volts" in config && config["L-galvo_offsets_volts"].Num?
    requires "L-galvo_amp_volts" in config && config["L-galvo_amp_volts"].Num?
    requires "R-galvo_offsets_volts" in config && config["R-galvo_offsets_volts"].Num?
    requires "R-galvo_amp_volts" in config && config["R-galvo_amp_volts"].Num?
    ensures config["active_arm"] == Text("left") ==>
      SetupOutcome(config, true, n, delay) == Ok(Some(Waveform(n, delay,
        config["L-galvo_offsets_volts"].num, config["L-galvo_amp_volts"].num, config["laser_pow_volts"].num)))
    ensures config["active_arm"] != Text("left") ==>
      SetupOutcome(config, true, n, delay) == Ok(Some(Waveform(n, delay,
        config["R-galvo_offsets_volts"].num, config["R-galvo_amp_volts"].num, config["laser_pow_volts"].num)))
  {
  }
}
