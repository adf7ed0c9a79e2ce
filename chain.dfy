/**
 * Resolution of one hash chain's settings: compiled-in default, then the
 * global `hash_chain_global` override, then the chain's own `hash_chain`
 * section, field by field. The midstate count comes from `asic_boost` alone.
 */
module ChainResolution {
  import opened Wrappers
  import opened Support
  import opened S9Config
  import Decimal

  /** `asic_boost` of the global section, if given */
  function AsicBoost(b: Backend): Option<bool> {
    if b.hashChainGlobal.Some? then b.hashChainGlobal.value.asicBoost else None
  }

  /** The global overridable section, if given */
  function GlobalOverride(b: Backend): Option<HashChain> {
    if b.hashChainGlobal.Some? then b.hashChainGlobal.value.overridable else None
  }

  function GlobalFrequency(b: Backend): Option<real> {
    if GlobalOverride(b).Some? then GlobalOverride(b).value.frequency else None
  }

  function GlobalVoltage(b: Backend): Option<real> {
    if GlobalOverride(b).Some? then GlobalOverride(b).value.voltage else None
  }

  /** The per-chain section found under the key `idx.to_string()` */
  function ChainOverride(b: Backend, idx: nat): (r: Option<HashChain>)
    ensures r.Some? <==> b.hashChains.Some? && Decimal.ToString(idx) in b.hashChains.value
    ensures r.Some? ==> r.value == b.hashChains.value[Decimal.ToString(idx)]
  {
    var key := Decimal.ToString(idx);
    if b.hashChains.Some? && key in b.hashChains.value then Some(b.hashChains.value[key]) else None
  }

  function ChainFrequency(b: Backend, idx: nat): Option<real> {
    if ChainOverride(b, idx).Some? then ChainOverride(b, idx).value.frequency else None
  }

  function ChainVoltage(b: Backend, idx: nat): Option<real> {
    if ChainOverride(b, idx).Some? then ChainOverride(b, idx).value.voltage else None
  }

  /** A per-chain field, when present, replaces the value below it and counts as supplied */
  function ApplyOverride<T>(field: Option<T>, below: OptionDefault<T>): (r: OptionDefault<T>)
    ensures field.Some? ==> r == Explicit(field.value)
    ensures field.None? ==> r == below
  {
    match field
    case Some(v) => Explicit(v)
    case None => below
  }

  /** `BackendConfig::midstate_count`: 4 with AsicBoost (the default), otherwise 1 */
  function MidstateCount(b: Backend): (r: nat)
    ensures AsicBoost(b) == Some(false) ==> r == 1
    ensures AsicBoost(b) != Some(false) ==> r == ASIC_BOOST_MIDSTATE_COUNT
  {
    if AsicBoost(b).GetOr(DEFAULT_ASIC_BOOST) then ASIC_BOOST_MIDSTATE_COUNT else 1
  }

  /**
   * `resolve_chain_config` before the conversion to hardware units: the
   * chain's own field wins, then the global field, then the default.
   */
  function ResolveChainConfig(b: Backend, idx: nat): (r: ResolvedChainConfig)
    ensures r.midstateCount == MidstateCount(b)
    ensures r.frequency == ChainFrequency(b, idx).GetOr(GlobalFrequency(b).GetOr(DEFAULT_FREQUENCY))
    ensures r.voltage == ChainVoltage(b, idx).GetOr(GlobalVoltage(b).GetOr(DEFAULT_VOLTAGE))
  {
    var frequency := New(GlobalFrequency(b), DEFAULT_FREQUENCY);
    var voltage := New(GlobalVoltage(b), DEFAULT_VOLTAGE);
    var (frequency', voltage') :=
      match ChainOverride(b, idx)
      case Some(hashChain) =>
        (ApplyOverride(hashChain.frequency, frequency), ApplyOverride(hashChain.voltage, voltage))
      case None => (frequency, voltage);
    ResolvedChainConfig(MidstateCount(b), frequency'.value, voltage'.value)
  }

  /** Without any override a chain runs at the compiled-in frequency and voltage */
  lemma DefaultsWithoutOverrides(b: Backend, idx: nat)
    requires GlobalOverride(b).None? && ChainOverride(b, idx).None?
    ensures ResolveChainConfig(b, idx).frequency == DEFAULT_FREQUENCY == 650.0
    ensures ResolveChainConfig(b, idx).voltage == DEFAULT_VOLTAGE == 8.8
  {
  }

  /**
   * Only the entry under the chain's own key matters: two configurations that
   * agree on the global section and on that entry resolve the chain alike,
   * whatever entries they hold for other indices.
   */
  lemma OtherChainEntriesIrrelevant(b: Backend, b': Backend, idx: nat)
    requires b'.hashChainGlobal == b.hashChainGlobal
    requires ChainOverride(b', idx) == ChainOverride(b, idx)
    ensures ResolveChainConfig(b', idx) == ResolveChainConfig(b, idx)
  {
  }

  /** The midstate count is the same for every chain and ignores per-chain sections */
  lemma MidstateCountIgnoresChains(b: Backend, b': Backend, i: nat, j: nat)
    requires AsicBoost(b') == AsicBoost(b)
    ensures ResolveChainConfig(b', j).midstateCount == ResolveChainConfig(b, i).midstateCount
  {
  }
}
