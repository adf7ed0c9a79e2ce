/**
 * Resolution of the thermal and fan monitor settings. One mode selector
 * (Auto | Manual | Disable) drives two independent outputs, a temperature
 * configuration and a fan configuration; supplied settings that the mode
 * leaves unused are reported as warnings and do not affect either output.
 */
module MonitorResolution {
  import opened Wrappers
  import opened Support
  import opened S9Config

  /** The settings of the `temp_control` and `fan_control` sections, as supplied */
  function ModeSetting(b: Backend): Option<TempControlMode> {
    if b.tempControl.Some? then b.tempControl.value.mode else None
  }

  function TargetTempSetting(b: Backend): Option<real> {
    if b.tempControl.Some? then b.tempControl.value.targetTemp else None
  }

  function HotTempSetting(b: Backend): Option<real> {
    if b.tempControl.Some? then b.tempControl.value.hotTemp else None
  }

  function DangerousTempSetting(b: Backend): Option<real> {
    if b.tempControl.Some? then b.tempControl.value.dangerousTemp else None
  }

  function FanSpeedSetting(b: Backend): Option<nat> {
    if b.fanControl.Some? then b.fanControl.value.speed else None
  }

  function MinFansSetting(b: Backend): Option<nat> {
    if b.fanControl.Some? then b.fanControl.value.minFans else None
  }

  /** The mode in force: the supplied one, Auto by default */
  function EffectiveMode(b: Backend): TempControlMode {
    ModeSetting(b).GetOr(DEFAULT_TEMP_CONTROL_MODE)
  }

  /** Every setting resolved against its default, with its provenance */
  datatype Settings = Settings(
    mode: OptionDefault<TempControlMode>,
    targetTemp: OptionDefault<real>,
    hotTemp: OptionDefault<real>,
    dangerousTemp: OptionDefault<real>,
    fanSpeed: OptionDefault<nat>,
    minFans: OptionDefault<nat>)

  function ResolveSettings(b: Backend): Settings {
    Settings(
      New(ModeSetting(b), DEFAULT_TEMP_CONTROL_MODE),
      New(TargetTempSetting(b), DEFAULT_TARGET_TEMP),
      New(HotTempSetting(b), DEFAULT_HOT_TEMP),
      New(DangerousTempSetting(b), DEFAULT_DANGEROUS_TEMP),
      New(FanSpeedSetting(b), DEFAULT_FAN_SPEED),
      New(MinFansSetting(b), DEFAULT_MIN_FANS))
  }

  /** The settings a warning can be about */
  datatype Field = TargetTemp | HotTemp | DangerousTemp | FanSpeed | MinFans

  /** A value a warning message shows */
  datatype Shown = Temperature(degrees: real) | Count(count: nat)

  /** "Unused `field` (`shown`) because of the mode" */
  datatype Warning = Unused(field: Field, shown: Shown)

  /** The value of `f` the user supplied, if any */
  function SuppliedValue(b: Backend, f: Field): Option<Shown> {
    match f
    case TargetTemp => if TargetTempSetting(b).Some? then Some(Temperature(TargetTempSetting(b).value)) else None
    case HotTemp => if HotTempSetting(b).Some? then Some(Temperature(HotTempSetting(b).value)) else None
    case DangerousTemp => if DangerousTempSetting(b).Some? then Some(Temperature(DangerousTempSetting(b).value)) else None
    case FanSpeed => if FanSpeedSetting(b).Some? then Some(Count(FanSpeedSetting(b).value)) else None
    case MinFans => if MinFansSetting(b).Some? then Some(Count(MinFansSetting(b).value)) else None
  }

  /**
   * Which settings a mode leaves without effect: the thresholds when
   * temperature control is disabled, a fixed fan speed in automatic mode and
   * the target temperature outside it. The minimal fan count is always used.
   */
  predicate InertUnder(f: Field, m: TempControlMode) {
    match f
    case HotTemp | DangerousTemp => m == Disable
    case FanSpeed => m == Auto
    case TargetTemp => m != Auto
    case MinFans => false
  }

  /** The value a warning about `f` shows: the setting's own value */
  function LoggedValue(f: Field, s: Settings): Shown {
    match f
    case TargetTemp => Temperature(s.targetTemp.value)
    case HotTemp => Temperature(s.hotTemp.value)
    case DangerousTemp => Temperature(s.dangerousTemp.value)
    case FanSpeed => Count(s.fanSpeed.value)
    case MinFans => Count(s.minFans.value)
  }

  /**
   * The value the backend's messages actually show: the `dangerous_temp`
   * warning prints `hot_temp` and the `target_temp` warning prints the fan
   * speed.
   */
  function LoggedValueAsWritten(f: Field, s: Settings): (r: Shown)
    ensures f != DangerousTemp && f != TargetTemp ==> r == LoggedValue(f, s)
    ensures f == DangerousTemp ==> r == LoggedValue(HotTemp, s)
    ensures f == TargetTemp ==> r == LoggedValue(FanSpeed, s)
  {
    match f
    case TargetTemp => Count(s.fanSpeed.value)
    case HotTemp => Temperature(s.hotTemp.value)
    case DangerousTemp => Temperature(s.hotTemp.value)
    case FanSpeed => Count(s.fanSpeed.value)
    case MinFans => Count(s.minFans.value)
  }

  /** A warning for `f` when the user supplied it, showing what `show` picks */
  function WarnIfSupplied<T>(f: Field, setting: OptionDefault<T>, s: Settings, show: (Field, Settings) -> Shown): seq<Warning> {
    if setting.IsSome() then [Unused(f, show(f, s))] else []
  }

  /** The temperature controller: thresholds unless disabled */
  function ResolveTempControl(s: Settings, show: (Field, Settings) -> Shown): (Option<TempControlConfig>, seq<Warning>) {
    match s.mode.value
    case Auto | Manual =>
      (Some(TempControlConfig(s.dangerousTemp.value, s.hotTemp.value)), [])
    case Disable =>
      (None, WarnIfSupplied(HotTemp, s.hotTemp, s, show) + WarnIfSupplied(DangerousTemp, s.dangerousTemp, s, show))
  }

  /**
   * The fan controller: target temperature in automatic mode, otherwise a
   * fixed speed, or no fan control at all when speed and minimal fan count
   * were both explicitly set to 0.
   */
  function ResolveFanControl(s: Settings, show: (Field, Settings) -> Shown): (Option<FanControlConfig>, seq<Warning>) {
    match s.mode.value
    case Auto =>
      (Some(FanControlConfig(TargetTemperature(s.targetTemp.value), s.minFans.value)),
       WarnIfSupplied(FanSpeed, s.fanSpeed, s, show))
    case Manual | Disable =>
      (if EqSome(s.fanSpeed, 0) && EqSome(s.minFans, 0) then None
       else Some(FanControlConfig(FixedSpeed(s.fanSpeed.value), s.minFans.value)),
       WarnIfSupplied(TargetTemp, s.targetTemp, s, show))
  }

  /** The monitor configuration together with the warnings resolution raised */
  datatype Resolution = Resolution(config: MonitorConfig, warnings: seq<Warning>)

  /** `resolve_monitor_config` */
  function ResolveMonitorConfig(b: Backend): (r: Resolution)
    ensures var m := EffectiveMode(b);
      && (r.config.tempConfig.Some? <==> m != Disable)
      && (r.config.tempConfig.Some? ==> r.config.tempConfig.value == TempControlConfig(
            DangerousTempSetting(b).GetOr(DEFAULT_DANGEROUS_TEMP), HotTempSetting(b).GetOr(DEFAULT_HOT_TEMP)))
      && (m == Auto ==> r.config.fanConfig == Some(FanControlConfig(
            TargetTemperature(TargetTempSetting(b).GetOr(DEFAULT_TARGET_TEMP)), MinFansSetting(b).GetOr(DEFAULT_MIN_FANS))))
      && (m != Auto ==> (r.config.fanConfig.None? <==> FanSpeedSetting(b) == Some(0) && MinFansSetting(b) == Some(0)))
      && (m != Auto && r.config.fanConfig.Some? ==> r.config.fanConfig.value == FanControlConfig(
            FixedSpeed(FanSpeedSetting(b).GetOr(DEFAULT_FAN_SPEED)), MinFansSetting(b).GetOr(DEFAULT_MIN_FANS)))
  {
    var s := ResolveSettings(b);
    var (temp, tempWarnings) := ResolveTempControl(s, LoggedValue);
    var (fan, fanWarnings) := ResolveFanControl(s, LoggedValue);
    Resolution(MonitorConfig(temp, fan), tempWarnings + fanWarnings)
  }

  /** The warnings `resolve_monitor_config` logs, with the values its messages actually print */
  function WarningsAsWritten(b: Backend): (ws: seq<Warning>)
    ensures |ws| == |ResolveMonitorConfig(b).warnings|
    ensures forall i | 0 <= i < |ws| :: ws[i].field == ResolveMonitorConfig(b).warnings[i].field
    ensures forall i | 0 <= i < |ws| :: ws[i].shown == LoggedValueAsWritten(ws[i].field, ResolveSettings(b))
  {
    var s := ResolveSettings(b);
    ResolveTempControl(s, LoggedValueAsWritten).1 + ResolveFanControl(s, LoggedValueAsWritten).1
  }

  /** Some warning in `ws` is about `f` */
  predicate Warned(ws: seq<Warning>, f: Field) {
    exists i | 0 <= i < |ws| :: ws[i].field == f
  }

  /**
   * A warning is raised exactly for each supplied setting the mode leaves
   * unused, once per setting, and it shows the value the user supplied.
   */
  lemma WarningsExactlyInertSupplied(b: Backend)
    ensures var ws := ResolveMonitorConfig(b).warnings;
      && (forall f :: Warned(ws, f) <==> SuppliedValue(b, f).Some? && InertUnder(f, EffectiveMode(b)))
      && (forall i, j | 0 <= i < j < |ws| :: ws[i].field != ws[j].field)
      && (forall i | 0 <= i < |ws| :: SuppliedValue(b, ws[i].field) == Some(ws[i].shown))
  {
    var s := ResolveSettings(b);
    var tempWarnings := ResolveTempControl(s, LoggedValue).1;
    var fanWarnings := ResolveFanControl(s, LoggedValue).1;
    var ws := ResolveMonitorConfig(b).warnings;
    assert ws == tempWarnings + fanWarnings;
    forall f
      ensures Warned(ws, f) <==> SuppliedValue(b, f).Some? && InertUnder(f, EffectiveMode(b))
    {
      if SuppliedValue(b, f).Some? && InertUnder(f, EffectiveMode(b)) {
        if f == DangerousTemp && HotTempSetting(b).Some? {
          assert ws[1].field == f;
        } else if f == HotTemp || f == DangerousTemp {
          assert ws[0].field == f;
        } else {
          assert ws[|tempWarnings|] == fanWarnings[0];
        }
      }
    }
  }

  /** The configuration `b` describes with every setting its mode leaves unused removed */
  function WithoutInert(b: Backend): Backend {
    var m := EffectiveMode(b);
    b.(
      tempControl := match b.tempControl
        case Some(tc) => Some(tc.(
          targetTemp := if InertUnder(TargetTemp, m) then None else tc.targetTemp,
          hotTemp := if InertUnder(HotTemp, m) then None else tc.hotTemp,
          dangerousTemp := if InertUnder(DangerousTemp, m) then None else tc.dangerousTemp))
        case None => None,
      fanControl := match b.fanControl
        case Some(fc) => Some(fc.(speed := if InertUnder(FanSpeed, m) then None else fc.speed))
        case None => None)
  }

  /**
   * Settings the mode leaves unused never affect the monitor configuration:
   * removing them changes nothing but silences every warning.
   */
  lemma InertSettingsDoNotAffectConfig(b: Backend)
    ensures ResolveMonitorConfig(WithoutInert(b)).config == ResolveMonitorConfig(b).config
    ensures ResolveMonitorConfig(WithoutInert(b)).warnings == []
  {
  }

  /** A defaulted fan speed (100) or minimal fan count (1) never switches fan control off */
  lemma DefaultNeverDisablesFans(b: Backend)
    requires FanSpeedSetting(b).None? || MinFansSetting(b).None?
    ensures ResolveMonitorConfig(b).config.fanConfig.Some?
  {
  }

  /**
   * The backend's `dangerous_temp` warning misreports the supplied value:
   * with `hot_temp` 90 and `dangerous_temp` 110 under Disable it shows 90.
   */
  lemma DangerousTempWarningShowsHotTemp()
    ensures exists b: Backend ::
      && EffectiveMode(b) == Disable
      && SuppliedValue(b, DangerousTemp) == Some(Temperature(110.0))
      && Unused(DangerousTemp, Temperature(90.0)) in WarningsAsWritten(b)
  {
    var b := Backend(
      Format(FORMAT_VERSION, FORMAT_MODEL, None, None), None, None,
      Some(TempControl(Some(Disable), None, Some(90.0), Some(110.0))), None);
    assert WarningsAsWritten(b)[1] == Unused(DangerousTemp, Temperature(90.0));
  }

  /**
   * The backend's `target_temp` warning shows the fan speed instead: with
   * `target_temp` 80 and no fan section under Manual it shows 100.
   */
  lemma TargetTempWarningShowsFanSpeed()
    ensures exists b: Backend ::
      && EffectiveMode(b) == Manual
      && SuppliedValue(b, TargetTemp) == Some(Temperature(80.0))
      && Unused(TargetTemp, Count(100)) in WarningsAsWritten(b)
  {
    var b := Backend(
      Format(FORMAT_VERSION, FORMAT_MODEL, None, None), None, None,
      Some(TempControl(Some(Manual), Some(80.0), None, None)), None);
    assert WarningsAsWritten(b)[0] == Unused(TargetTemp, Count(100));
  }
}
