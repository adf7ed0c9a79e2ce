# Antminer S9 backend configuration: resolution and validation

A Dafny model of how the bosminer Antminer S9 backend turns its decoded
configuration file into settings for the hardware and the monitor
(`open/bosminer/bosminer-am1-s9/src/config.rs`):

- **Default-or-override values** (`Support`): a setting resolved against its
  compiled-in default. It remembers whether the user supplied it
  (`OptionDefault`: `New`, `IsSome`, `EqSome`).
- **Per-chain resolution** (`ChainResolution`): the default is overlaid by the
  global `hash_chain_global` frequency/voltage, then by the chain's own
  `hash_chain` section, found under the key `idx.to_string()`. The midstate
  count comes from `asic_boost` alone.
- **Monitor resolution** (`MonitorResolution`): one mode selector
  `Auto | Manual | Disable` drives two outputs, an optional temperature
  configuration and an optional fan configuration. Outside Auto mode (Manual
  or Disable), explicitly setting both the fan speed and the minimal fan count
  to 0 removes fan control. Supplied
  settings that the mode leaves unused produce warnings. Warnings are returned
  as a list beside the configuration instead of going to a logger.
- **Load-time validation** (`Validation`): `Parse` checks the format model,
  then the format version, then every per-chain key. It is a method with a
  loop over the keys of the per-chain table, visited in no fixed order, as
  Rust's `HashMap` visits them.
- **Key spelling** (`Decimal`): Rust's `str::parse::<usize>` validates keys and
  `usize::to_string` builds the lookup key, so the two are modelled separately.
  The model proves that a validated key applies to its chain exactly when it is
  spelled canonically. A key such as `"05"` or `"+5"` is therefore accepted but
  never used (`Validation.ValidKeyReachesChainIffCanonical`).

`S9Config` holds the records and the default constants. `Wrappers` holds
`Option` and `Result`.

Two consequences of the code may surprise a reader. With `asic_boost` unset the midstate count is 4, because `DEFAULT_ASIC_BOOST`
is `true`; it is not the minimal count. Fan control is removed only when both
fan values are explicitly supplied as 0, not whenever they resolve to 0. The
two rules agree because the defaults are 100 and 1
(`MonitorResolution.DefaultNeverDisablesFans`).

## Model

| member | source | states |
|---|---|---|
| Support.New | open/bosminer/bosminer-am1-s9/src/config.rs:189-196 | the resolved value is the supplied one if any, else the default; it counts as supplied exactly when the user gave it |
| Decimal.ParseUsize | open/bosminer/bosminer-am1-s9/src/config.rs:344-346 | a key parses only if it is an optional '+' followed by at least one digit, and then to the decimal value of those digits, which fits in a 32-bit `usize`; every plain digit string within that bound parses |
| Decimal.PlusPrefixParsesSame | open/bosminer/bosminer-am1-s9/src/config.rs:344-346 | a leading '+' on a digit string is accepted and does not change the parsed value |
| Decimal.OverflowFails | open/bosminer/bosminer-am1-s9/src/config.rs:344-346 | a digit string whose value exceeds `usize::MAX` does not parse, with or without '+' |
| Decimal.LonePlusFails | open/bosminer/bosminer-am1-s9/src/config.rs:344-346 | "+" alone does not parse |
| Decimal.ToString | open/bosminer/bosminer-am1-s9/src/config.rs:202 | the lookup key of an index is a non-empty string of decimal digits |
| Decimal.ToStringValue | open/bosminer/bosminer-am1-s9/src/config.rs:202 | the lookup key denotes its index, has no '+' and no leading zero |
| Decimal.ParseToString | open/bosminer/bosminer-am1-s9/src/config.rs:344-346 | parsing the lookup key of an index gives the index back |
| Decimal.CanonicalDigitsAreToString | open/bosminer/bosminer-am1-s9/src/config.rs:202 | every canonically spelled digit string is the lookup key of its value |
| Decimal.ParsedKeyIsToStringIffCanonical | open/bosminer/bosminer-am1-s9/src/config.rs:344-346 | a key that parses as n is n's lookup key if and only if it is spelled canonically |
| Decimal.ToStringInjective | open/bosminer/bosminer-am1-s9/src/config.rs:202 | different indices have different lookup keys |
| ChainResolution.ChainOverride | open/bosminer/bosminer-am1-s9/src/config.rs:199-203 | a chain's section is the table entry under `idx.to_string()`, present exactly when that key is in the table |
| ChainResolution.ApplyOverride | open/bosminer/bosminer-am1-s9/src/config.rs:204-211 | a present per-chain field replaces the value below it and marks it supplied; an absent one leaves it unchanged |
| ChainResolution.MidstateCount | open/bosminer/bosminer-am1-s9/src/config.rs:381-392 | 1 when `asic_boost` is false, 4 when it is true or unset |
| ChainResolution.ResolveChainConfig | open/bosminer/bosminer-am1-s9/src/config.rs:183-216 | frequency and voltage are each the chain's own field if present, else the global field if present, else the default; the midstate count is the backend's |
| ChainResolution.DefaultsWithoutOverrides | open/bosminer/bosminer-am1-s9/src/config.rs:185-196 | with no global section and no entry for the chain, the chain runs at 650 MHz and 8.8 V |
| ChainResolution.OtherChainEntriesIrrelevant | open/bosminer/bosminer-am1-s9/src/config.rs:199-212 | entries for other indices have no effect on a chain's settings |
| ChainResolution.MidstateCountIgnoresChains | open/bosminer/bosminer-am1-s9/src/config.rs:216 | the midstate count depends on `asic_boost` alone, not on the index or per-chain sections |
| MonitorResolution.ResolveMonitorConfig | open/bosminer/bosminer-am1-s9/src/config.rs:223-320 | mode defaults to Auto; temperature config present iff the mode is not Disable, with the resolved thresholds; Auto gives target-temperature fan control; Manual/Disable give fixed-speed fan control, absent iff speed and minimal fans were both supplied as 0 |
| MonitorResolution.WarningsExactlyInertSupplied | open/bosminer/bosminer-am1-s9/src/config.rs:263-313 | a warning is raised exactly for each supplied setting the mode leaves unused (thresholds under Disable, speed under Auto, target under Manual/Disable), once each, showing the supplied value |
| MonitorResolution.InertSettingsDoNotAffectConfig | open/bosminer/bosminer-am1-s9/src/config.rs:252-314 | removing every unused supplied setting leaves the monitor configuration unchanged and silences all warnings |
| MonitorResolution.DefaultNeverDisablesFans | open/bosminer/bosminer-am1-s9/src/config.rs:296-305 | a defaulted fan speed or minimal fan count never removes fan control |
| MonitorResolution.LoggedValueAsWritten | open/bosminer/bosminer-am1-s9/src/config.rs:266-311 | the value each warning message prints as written: the field's own value, except that the `dangerous_temp` message prints `hot_temp` and the `target_temp` message prints the fan speed |
| MonitorResolution.WarningsAsWritten | open/bosminer/bosminer-am1-s9/src/config.rs:263-313 | the warnings as the backend logs them: the same fields in the same order as the model's warnings, with the values the messages print as written |
| MonitorResolution.DangerousTempWarningShowsHotTemp | open/bosminer/bosminer-am1-s9/src/config.rs:272-276 | under Disable with `hot_temp` 90 and `dangerous_temp` 110, the logged warnings contain the `dangerous_temp` warning showing 90 |
| MonitorResolution.TargetTempWarningShowsFanSpeed | open/bosminer/bosminer-am1-s9/src/config.rs:307-311 | under Manual with `target_temp` 80 and no fan section, the logged warnings contain the `target_temp` warning showing 100 |
| Validation.CheckIndex | open/bosminer/bosminer-am1-s9/src/config.rs:343-356 | a key is accepted iff it parses as a `usize` in 1..=9; otherwise the error is "not a number" or "out of range" with the parsed index |
| Validation.Parse | open/bosminer/bosminer-am1-s9/src/config.rs:326-358 | model mismatch fails first, then version mismatch, then a bad per-chain key (one of the bad keys' errors); success iff every key is valid, returning the configuration unchanged |
| Validation.OverflowingKeyIsNotNumber | open/bosminer/bosminer-am1-s9/src/config.rs:344-346 | a key whose digits overflow a `usize` fails as "not a number", with or without '+' |
| Validation.ValidKeyReachesChainIffCanonical | open/bosminer/bosminer-am1-s9/src/config.rs:199-203 | a validated key is used for its own index iff it is spelled canonically, and never for another index |
| Validation.ZeroPaddedKeyMatchesNoChain | open/bosminer/bosminer-am1-s9/src/config.rs:343-356 | "05" is accepted as index 5 but is no chain's lookup key |
| Validation.KeyExamples | open/bosminer/bosminer-am1-s9/src/config.rs:348-355 | keys "0" and "10" are out of range, "abc" and "+" are not numbers, "5" and "+5" are accepted as index 5 |

## Left out

- Reading and decoding the TOML file (`bosminer_config::parse`) and serde's unknown-field checks: `Parse` starts from the decoded record. A decoding failure is not modelled.
- Pools: parsing pool URLs with `bosminer_config::client::parse` (which aborts on a bad URL), storing the client descriptors, and `clients()` draining them. This is foreign code. `Backend` has no pool fields.
- Conversion to hardware units: the MHz to Hz conversion, `FrequencySettings::from_frequency`, `power::Voltage::from_volts` (including its range check and abort), `MidstateCount::new` and `fan::Speed::new`. These are `f32` arithmetic and types from other modules. `ResolvedChainConfig` carries the frequency in MHz and the voltage in volts.
- `f32` values are modelled as `real`. Resolution only compares and passes them on, so rounding never matters (8.8 is not exact in `f32`).
- The `warn!` logger and the message text: warnings are returned as `Unused(field, shown value)`.
- The `support` module's own source is not part of this model. `OptionDefault` is rebuilt from how `config.rs` uses it.
- Constants that play no part in resolution (`DEFAULT_CONFIG_PATH`, `ASYNC_LOGGER_DRAIN_CHANNEL_SIZE`, `S9_HASHBOARD_INDEX`, `ASIC_DIFFICULTY`, `DEFAULT_HASHRATE_INTERVAL`, `JOB_TIMEOUT`), the `api` submodule, and the unused `generator`/`timestamp` fields of the format section. `timestamp` is a `nat` rather than a `u32`.

## Findings

| source | as written | input that shows it | evidently intended | confidence | as-written member | corrected member |
|---|---|---|---|---|---|---|
| open/bosminer/bosminer-am1-s9/src/config.rs:272-276 | the warning for an unused `dangerous_temp` prints `hot_temp` | mode `disable`, `hot_temp = 90`, `dangerous_temp = 110`: the warning shows 90 | print the supplied `dangerous_temp` (110) | high, not executed | MonitorResolution.DangerousTempWarningShowsHotTemp | MonitorResolution.WarningsExactlyInertSupplied |
| open/bosminer/bosminer-am1-s9/src/config.rs:307-311 | the warning for an unused `target_temp` prints the fan speed | mode `manual`, `target_temp = 80`, no fan section: the warning shows 100 | print the supplied `target_temp` (80) | high, not executed | MonitorResolution.TargetTempWarningShowsFanSpeed | MonitorResolution.WarningsExactlyInertSupplied |

`MonitorResolution.WarningsAsWritten` lists the warnings as the backend logs them, using `LoggedValueAsWritten`. `MonitorResolution.LoggedValue` gives the corrected values, and the warnings of `ResolveMonitorConfig` use it.
