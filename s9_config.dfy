/**
 * The configuration records of the Antminer S9 backend as the file decoder
 * hands them over, the records resolution produces, and the compiled-in
 * defaults. Temperatures, frequencies and voltages are `f32` in the backend;
 * resolution only compares and passes them on, so they are `real` here.
 */
module S9Config {
  import opened Wrappers

  /** Expected configuration version and model */
  const FORMAT_VERSION: string := "beta"
  const FORMAT_MODEL: string := "Antminer S9"

  /** Number of midstates when AsicBoost is enabled, and whether it is by default */
  const ASIC_BOOST_MIDSTATE_COUNT: nat := 4
  const DEFAULT_ASIC_BOOST: bool := true

  /** Default PLL frequency in MHz and default voltage in volts */
  const DEFAULT_FREQUENCY: real := 650.0
  const DEFAULT_VOLTAGE: real := 8.8

  const DEFAULT_TEMP_CONTROL_MODE: TempControlMode := Auto

  /** Default temperatures for temperature control, in degrees Celsius */
  const DEFAULT_TARGET_TEMP: real := 75.0
  const DEFAULT_HOT_TEMP: real := 95.0
  const DEFAULT_DANGEROUS_TEMP: real := 105.0

  /** Default fan speed (percent) in manual mode and minimal number of running fans */
  const DEFAULT_FAN_SPEED: nat := 100
  const DEFAULT_MIN_FANS: nat := 1

  /** Range of hash chain indices accepted as per-chain keys */
  const HASH_CHAIN_INDEX_MIN: nat := 1
  const HASH_CHAIN_INDEX_MAX: nat := 9

  datatype TempControlMode = Auto | Manual | Disable

  datatype Format = Format(version: string, model: string, generator: Option<string>, timestamp: Option<nat>)

  /** Per-chain overridable settings; also the global override of every chain */
  datatype HashChain = HashChain(frequency: Option<real>, voltage: Option<real>)

  datatype HashChainGlobal = HashChainGlobal(asicBoost: Option<bool>, overridable: Option<HashChain>)

  datatype TempControl = TempControl(
    mode: Option<TempControlMode>,
    targetTemp: Option<real>,
    hotTemp: Option<real>,
    dangerousTemp: Option<real>)

  datatype FanControl = FanControl(speed: Option<nat>, minFans: Option<nat>)

  /** The decoded configuration file; per-chain sections are keyed by their textual index */
  datatype Backend = Backend(
    format: Format,
    hashChainGlobal: Option<HashChainGlobal>,
    hashChains: Option<map<string, HashChain>>,
    tempControl: Option<TempControl>,
    fanControl: Option<FanControl>)

  /** Settings of one hash chain, frequency in MHz and voltage in volts */
  datatype ResolvedChainConfig = ResolvedChainConfig(midstateCount: nat, frequency: real, voltage: real)

  /** What the thermal/fan monitor receives */
  datatype TempControlConfig = TempControlConfig(dangerousTemp: real, hotTemp: real)

  datatype FanControlMode = TargetTemperature(temp: real) | FixedSpeed(speed: nat)

  datatype FanControlConfig = FanControlConfig(mode: FanControlMode, minFans: nat)

  datatype MonitorConfig = MonitorConfig(tempConfig: Option<TempControlConfig>, fanConfig: Option<FanControlConfig>)
}
