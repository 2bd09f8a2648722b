/** Presets: saving a position relative to home, and loading it with both axes arriving together. */
module Preset {
  import opened MathLib
  import opened Control
  import opened Measured

  const HOME: nat := 0
  const PRESET_COUNT: nat := 5

  datatype Preset = Preset(pitch: real, yaw: real, valid: bool)

  const UNSET := Preset(0.0, 0.0, false)

  datatype ControlMode = NoMotion | Remote | Manual | Auto

  /** What the preset code reads and writes. */
  datatype Crane = Crane(presets: seq<Preset>, updown: Axis, leftright: Axis, mode: ControlMode) {
    ghost predicate Valid() {
      |presets| == PRESET_COUNT
    }
  }

  /** The mathematics and the configurations of the two axes. */
  datatype Setup = Setup(lib: Libm, updown: Conf, leftright: Conf) {
    ghost predicate Valid() {
      lib.Valid() && !updown.radians && leftright.radians
    }
  }

  /** The rates the knobs give; they are never zero once measured. */
  predicate Rated(m: Measurement) {
    m.pitchAcc != 0.0 && m.pitchSpeed != 0.0 && m.yawAcc != 0.0 && m.yawSpeed != 0.0
  }

  // ----- saving

  /** `fb_config_set_preset`. */
  function SetPreset(presets: seq<Preset>, k: nat, pitch: real, yaw: real): seq<Preset> {
    if k >= PRESET_COUNT || k >= |presets| then presets else presets[k := Preset(pitch, yaw, true)]
  }

  /** A long press: home is saved as it is, every other preset relative to home. */
  function Save(presets: seq<Preset>, m: Measurement, k: nat): seq<Preset>
    requires |presets| == PRESET_COUNT
  {
    if k == HOME then SetPreset(presets, k, m.pitch, m.yaw)
    else SetPreset(presets, k, m.pitch - presets[HOME].pitch, m.yaw - presets[HOME].yaw)
  }

  // ----- loading

  /** Home itself, or the opposite direction when that is nearer. */
  function HomeYaw(pi: real, home: real, yaw: real): real
    requires pi > 0.0
  {
    if Abs(NormalizeAngle(pi, home - yaw)) > pi / 2.0 then NormalizeAngle(pi, home + pi) else home
  }

  /** The timebases that slow the shorter of the two moves down. */
  function Timebases(updown: real, leftright: real): (real, real) {
    var (tMin, tMax) := (Min(updown, leftright), Max(updown, leftright));
    if Abs(tMin) > 0.05 then
      var scale := tMax / tMin;
      if Abs(scale) > 0.05 then
        if updown >= leftright then (1.0, 1.0 / scale) else (1.0 / scale, 1.0)
      else (1.0, 1.0)
    else (1.0, 1.0)
  }

  function Requested(x: Axis, pos: real, target: real, limits: Limits): Axis {
    SetLimits(SetTarget(SetInput(x, Input(pos, 0.0)), target), limits)
  }

  function UpDownLimits(m: Measurement): Limits {
    Limits(m.pitchAcc * 0.5, m.pitchSpeed * 0.9, m.pitchAcc * 0.5)
  }

  function LeftRightLimits(m: Measurement): Limits {
    Limits(m.yawAcc * 0.6, m.yawSpeed * 0.5, m.yawAcc * 0.6)
  }

  lemma RatedLimits(m: Measurement)
    requires Rated(m)
    ensures UpDownLimits(m).AllSet() && LeftRightLimits(m).AllSet()
  {
  }

  function LoadHome(s: Setup, c: Crane, m: Measurement): Crane
    requires s.lib.pi > 0.0 && c.Valid()
  {
    var p := c.presets[HOME];
    Crane(c.presets,
          Requested(c.updown, m.pitch, p.pitch, Limits(0.5, 0.9, 0.5)),
          Requested(c.leftright, m.yaw, HomeYaw(s.lib.pi, p.yaw, m.yaw), Limits(0.6, 0.5, 0.6)),
          Auto)
  }

  function TargetPitch(c: Crane, k: nat): real
    requires c.Valid() && k < PRESET_COUNT
  {
    c.presets[k].pitch + c.presets[HOME].pitch
  }

  function TargetYaw(pi: real, c: Crane, k: nat): real
    requires pi > 0.0 && c.Valid() && k < PRESET_COUNT
  {
    NormalizeAngle(pi, c.presets[k].yaw + c.presets[HOME].yaw)
  }

  function Rescaled(c: Crane): Crane {
    var t := Timebases(RemainingTime(c.updown), RemainingTime(c.leftright));
    c.(updown := SetTimebase(c.updown, t.0), leftright := SetTimebase(c.leftright, t.1))
  }

  /** The two axes after their targets and limits are set. */
  function Aimed(s: Setup, c: Crane, m: Measurement, k: nat): Crane
    requires s.lib.pi > 0.0 && c.Valid() && k < PRESET_COUNT
  {
    c.(updown := Requested(c.updown, m.pitch, TargetPitch(c, k), UpDownLimits(m)),
       leftright := Requested(c.leftright, m.yaw, TargetYaw(s.lib.pi, c, k), LeftRightLimits(m)))
  }

  lemma AimedStartable(s: Setup, c: Crane, m: Measurement, k: nat)
    requires s.lib.pi > 0.0 && c.Valid() && k < PRESET_COUNT && Rated(m)
    ensures Aimed(s, c, m, k).updown.limits.AllSet() && Aimed(s, c, m, k).leftright.limits.AllSet()
  {
    hide NormalizeAngle;
  }

  function LoadPreset(s: Setup, c: Crane, m: Measurement, k: nat): Crane
    requires s.lib.pi > 0.0 && c.Valid() && k < PRESET_COUNT && Rated(m)
  {
    RatedLimits(m);
    var aimed := Aimed(s, c, m, k);
    var started := aimed.(updown := Clock(s.lib, s.updown, aimed.updown),
                          leftright := Clock(s.lib, s.leftright, aimed.leftright));
    Rescaled(started).(mode := Auto)
  }

  predicate CanLoad(c: Crane, k: nat) {
    k < |c.presets| && HOME < |c.presets| && c.presets[k].valid && c.presets[HOME].valid
  }

  /** `fb_try_load_preset`; it does nothing when the preset or home was never saved. */
  function Load(s: Setup, c: Crane, m: Measurement, k: nat): Crane
    requires s.lib.pi > 0.0 && c.Valid() && k < PRESET_COUNT && Rated(m)
  {
    if !CanLoad(c, k) then c
    else if k == HOME then LoadHome(s, c, m)
    else LoadPreset(s, c, m, k)
  }

  // ----- the operational state

  datatype Switch = Switch(pressed: bool, longPressed: bool, toggled: bool)

  function Press(s: Setup, c: Crane, m: Measurement, sw: Switch, k: nat): (r: Crane)
    requires s.lib.pi > 0.0 && c.Valid() && k < PRESET_COUNT && Rated(m)
    ensures r.Valid()
  {
    if sw.longPressed then c.(presets := Save(c.presets, m, k))
    else if !sw.pressed && sw.toggled then Load(s, c, m, k)
    else c
  }

  /** The first `k` buttons, in order. */
  function Operate(s: Setup, c: Crane, m: Measurement, sw: seq<Switch>, k: nat): (r: Crane)
    requires s.lib.pi > 0.0 && c.Valid() && Rated(m) && |sw| == PRESET_COUNT && k <= PRESET_COUNT
    ensures r.Valid()
    decreases k
  {
    if k == 0 then c else Press(s, Operate(s, c, m, sw, k - 1), m, sw[k - 1], k - 1)
  }

  class Presets {
    const setup: Setup
    const updown: FbControl
    const leftright: FbControl
    var presets: seq<Preset>
    var mode: ControlMode

    /** The objects behind the two axes are different ones. */
    ghost predicate Valid()
      reads this
    {
      && setup.Valid() && |presets| == PRESET_COUNT
      && updown.Valid() && leftright.Valid()
      && updown.lib == setup.lib && leftright.lib == setup.lib
      && updown.conf == setup.updown && leftright.conf == setup.leftright
      && updown != leftright && updown.trajectory != leftright.trajectory && updown.errFilt != leftright.errFilt
    }

    ghost function Repr(): set<object> {
      {this, updown, updown.trajectory, updown.errFilt, leftright, leftright.trajectory, leftright.errFilt}
    }

    ghost function Current(): Crane
      reads Repr()
    {
      Crane(presets, updown.Current(), leftright.Current(), mode)
    }

    constructor (setup: Setup)
      requires setup.Valid()
      ensures Valid() && this.setup == setup && fresh(Repr())
      ensures Current() == Crane(seq(PRESET_COUNT, i => UNSET), STOPPED, STOPPED, Manual)
    {
      this.setup := setup;
      var ud := new FbControl(setup.lib, setup.updown);
      var lr := new FbControl(setup.lib, setup.leftright);
      updown := ud;
      leftright := lr;
      presets := seq(PRESET_COUNT, i => UNSET);
      mode := Manual;
    }

    method DoSetPreset(k: nat, pitch: real, yaw: real)
      requires Valid()
      modifies this`presets
      ensures Valid() && presets == SetPreset(old(presets), k, pitch, yaw)
    {
      if k >= PRESET_COUNT {
        return;
      }
      presets := presets[k := Preset(pitch, yaw, true)];
    }

    method SetInputs(pitch: real, yaw: real)
      requires Valid()
      modifies updown, leftright
      ensures Valid()
      ensures updown.Current() == SetInput(old(updown.Current()), Input(pitch, 0.0))
      ensures leftright.Current() == SetInput(old(leftright.Current()), Input(yaw, 0.0))
    {
      updown.DoSetInput(pitch, 0.0);
      leftright.DoSetInput(yaw, 0.0);
    }

    method SetTargets(pitch: real, yaw: real)
      requires Valid()
      modifies updown, leftright
      ensures Valid()
      ensures updown.Current() == SetTarget(old(updown.Current()), pitch)
      ensures leftright.Current() == SetTarget(old(leftright.Current()), yaw)
    {
      updown.DoSetTarget(pitch);
      leftright.DoSetTarget(yaw);
    }

    method SetAllLimits(ud: Limits, lr: Limits)
      requires Valid()
      modifies updown, leftright
      ensures Valid()
      ensures updown.Current() == SetLimits(old(updown.Current()), ud)
      ensures leftright.Current() == SetLimits(old(leftright.Current()), lr)
    {
      updown.DoSetLimits(ud.acc, ud.vel, ud.dec);
      leftright.DoSetLimits(lr.acc, lr.vel, lr.dec);
    }

    method ClockBoth()
      requires Valid()
      requires updown.Current().start ==> updown.Current().limits.AllSet()
      requires leftright.Current().start ==> leftright.Current().limits.AllSet()
      modifies Repr() - {this}
      ensures Valid()
      ensures updown.Current() == Clock(setup.lib, setup.updown, old(updown.Current()))
      ensures leftright.Current() == Clock(setup.lib, setup.leftright, old(leftright.Current()))
    {
      hide Clock;
      updown.DoClock();
      leftright.DoClock();
    }

    method ResetBoth()
      requires Valid()
      modifies Repr() - {this}
      ensures Valid() && updown.Current() == STOPPED && leftright.Current() == STOPPED
    {
      updown.Reset();
      leftright.Reset();
    }

    method StartAndRescale()
      requires Valid()
      requires updown.Current().start ==> updown.Current().limits.AllSet()
      requires leftright.Current().start ==> leftright.Current().limits.AllSet()
      modifies Repr() - {this}
      ensures Valid()
      ensures Current() == Rescaled(old(Current()).(
                                      updown := Clock(setup.lib, setup.updown, old(updown.Current())),
                                      leftright := Clock(setup.lib, setup.leftright, old(leftright.Current()))))
    {
      hide Clock, Timebases;
      ClockBoth();
      Rescale();
    }

    method Rescale()
      requires Valid()
      modifies updown, leftright
      ensures Valid() && Current() == Rescaled(old(Current()))
    {
      var tUpdown := updown.GetRemainingTime();
      var tLeftright := leftright.GetRemainingTime();
      var tMin := Min(tUpdown, tLeftright);
      var tMax := Max(tUpdown, tLeftright);
      var (a, b) := (1.0, 1.0);
      if Abs(tMin) > 0.05 {
        var scale := tMax / tMin;
        if Abs(scale) > 0.05 {
          if tUpdown >= tLeftright {
            b := 1.0 / scale;
          } else {
            a := 1.0 / scale;
          }
        }
      }
      assert (a, b) == Timebases(tUpdown, tLeftright);
      updown.DoSetTimebase(a);
      leftright.DoSetTimebase(b);
    }

    /** Tells both axes where they are, where to go and how fast. */
    method RequestBoth(m: Measurement, pitch: real, yaw: real, ud: Limits, lr: Limits)
      requires Valid()
      modifies updown, leftright
      ensures Valid()
      ensures Current() == old(Current()).(updown := Requested(old(updown.Current()), m.pitch, pitch, ud),
                                           leftright := Requested(old(leftright.Current()), m.yaw, yaw, lr))
    {
      SetInputs(m.pitch, m.yaw);
      SetTargets(pitch, yaw);
      SetAllLimits(ud, lr);
    }

    method TryLoadPreset(m: Measurement, k: nat) returns (loaded: bool)
      requires Valid() && k < PRESET_COUNT && Rated(m)
      modifies Repr()
      ensures Valid()
      ensures loaded == CanLoad(old(Current()), k) && Current() == Load(setup, old(Current()), m, k)
    {
      hide Clock, NormalizeAngle, Timebases, Requested, UpDownLimits, LeftRightLimits, Rescaled;
      var p, home := presets[k], presets[HOME];
      if !p.valid || !home.valid {
        return false;
      }
      var targetYaw, targetPitch := p.yaw, p.pitch;
      if k != HOME {
        targetYaw := NormalizeAngle(setup.lib.pi, targetYaw + home.yaw);
        targetPitch := targetPitch + home.pitch;
      }
      var yawDiff := NormalizeAngle(setup.lib.pi, targetYaw - m.yaw);
      if k == HOME {
        if Abs(yawDiff) > setup.lib.pi / 2.0 {
          targetYaw := NormalizeAngle(setup.lib.pi, targetYaw + setup.lib.pi);
        }
        RequestBoth(m, targetPitch, targetYaw, Limits(0.5, 0.9, 0.5), Limits(0.6, 0.5, 0.6));
      } else {
        RequestBoth(m, targetPitch, targetYaw, UpDownLimits(m), LeftRightLimits(m));
        RatedLimits(m);
        AimedStartable(setup, old(Current()), m, k);
        StartAndRescale();
      }
      mode := Auto;
      return true;
    }

    /** `_fb_state_operational`. */
    method Operational(m: Measurement, sw: seq<Switch>)
      requires Valid() && |sw| == PRESET_COUNT && Rated(m)
      modifies Repr()
      ensures Valid() && Current() == Operate(setup, old(Current()), m, sw, PRESET_COUNT)
    {
      hide Load;
      var preset := 0;
      while preset < PRESET_COUNT
        invariant preset <= PRESET_COUNT && Valid()
        invariant Current() == Operate(setup, old(Current()), m, sw, preset)
      {
        if sw[preset].longPressed {
          if preset == HOME {
            DoSetPreset(preset, m.pitch, m.yaw);
          } else {
            var home := presets[HOME];
            DoSetPreset(preset, m.pitch - home.pitch, m.yaw - home.yaw);
          }
        } else if !sw[preset].pressed && sw[preset].toggled {
          var _ := TryLoadPreset(m, preset);
        }
        preset := preset + 1;
      }
    }
  }
}
