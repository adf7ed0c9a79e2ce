/**
 * Load-time validation of a decoded configuration (`Backend::parse` after the
 * file has been decoded): the format model, then the format version, then
 * every per-chain key, each with its own error.
 */
module Validation {
  import opened Wrappers
  import opened S9Config
  import Decimal
  import ChainResolution

  datatype ParseError =
    | IncompatibleModel(model: string)
    | IncompatibleVersion(version: string)
    | IndexNotNumber(key: string)
    | IndexOutOfRange(index: nat)

  /** The check made of one per-chain key: it must parse as a `usize` in 1..=9 */
  function CheckIndex(key: string): (r: Result<nat, ParseError>)
    ensures Decimal.ParseUsize(key).None? <==> r == Failure(IndexNotNumber(key))
    ensures r.Success? <==> (Decimal.ParseUsize(key).Some? &&
      HASH_CHAIN_INDEX_MIN <= Decimal.ParseUsize(key).value <= HASH_CHAIN_INDEX_MAX)
    ensures r.Success? ==> Decimal.ParseUsize(key) == Some(r.value)
    ensures r.Failure? && Decimal.ParseUsize(key).Some? ==> r.error == IndexOutOfRange(Decimal.ParseUsize(key).value)
  {
    match Decimal.ParseUsize(key)
    case None => Failure(IndexNotNumber(key))
    case Some(idx) =>
      if HASH_CHAIN_INDEX_MIN <= idx <= HASH_CHAIN_INDEX_MAX then Success(idx)
      else Failure(IndexOutOfRange(idx))
  }

  function ChainKeys(b: Backend): set<string> {
    if b.hashChains.Some? then b.hashChains.value.Keys else {}
  }

  predicate FormatCompatible(b: Backend) {
    b.format.model == FORMAT_MODEL && b.format.version == FORMAT_VERSION
  }

  /**
   * `Backend::parse` on a decoded configuration. The keys of the per-chain
   * table are visited in no particular order, so when several are bad the
   * error names one of them.
   */
  method Parse(raw: Backend) returns (r: Result<Backend, ParseError>)
    ensures raw.format.model != FORMAT_MODEL ==> r == Failure(IncompatibleModel(raw.format.model))
    ensures raw.format.model == FORMAT_MODEL && raw.format.version != FORMAT_VERSION ==>
      r == Failure(IncompatibleVersion(raw.format.version))
    ensures FormatCompatible(raw) ==> (r.Success? <==> forall k | k in ChainKeys(raw) :: CheckIndex(k).Success?)
    ensures FormatCompatible(raw) && r.Failure? ==> exists k | k in ChainKeys(raw) :: CheckIndex(k) == Failure(r.error)
    ensures r.Success? ==> r.value == raw
  {
    if raw.format.model != FORMAT_MODEL {
      return Failure(IncompatibleModel(raw.format.model));
    }
    if raw.format.version != FORMAT_VERSION {
      return Failure(IncompatibleVersion(raw.format.version));
    }
    if raw.hashChains.Some? {
      var remaining := raw.hashChains.value.Keys;
      while remaining != {}
        invariant remaining <= ChainKeys(raw)
        invariant forall k | k in ChainKeys(raw) - remaining :: CheckIndex(k).Success?
        decreases remaining
      {
        var key :| key in remaining;
        var checked := CheckIndex(key);
        if checked.Failure? {
          return Failure(checked.error);
        }
        remaining := remaining - {key};
      }
    }
    return Success(raw);
  }

  /**
   * A key that passes validation is the lookup key of its own index exactly
   * when it is spelled canonically, and never the lookup key of another
   * index: a zero-padded key such as "05" is accepted but applies to no chain.
   */
  lemma ValidKeyReachesChainIffCanonical(b: Backend, key: string, idx: nat)
    requires b.hashChains.Some? && key in b.hashChains.value
    requires CheckIndex(key).Success?
    ensures key == Decimal.ToString(idx) ==> idx == CheckIndex(key).value
    ensures Decimal.Canonical(key) <==> key == Decimal.ToString(CheckIndex(key).value)
    ensures Decimal.Canonical(key) ==>
      ChainResolution.ChainOverride(b, CheckIndex(key).value) == Some(b.hashChains.value[key])
  {
    var n := CheckIndex(key).value;
    Decimal.ParsedKeyIsToStringIffCanonical(key, n);
    if key == Decimal.ToString(idx) {
      Decimal.ToStringValue(idx);
      Decimal.ToStringInjective(idx, n);
    }
  }

  /** A key whose digits overflow a `usize` fails as "not a number", not as out of range */
  lemma OverflowingKeyIsNotNumber(key: string)
    requires |key| > 0 && Decimal.AllDigits(key) && Decimal.DigitsValue(key) > Decimal.USIZE_MAX
    ensures CheckIndex(key) == Failure(IndexNotNumber(key))
    ensures CheckIndex("+" + key) == Failure(IndexNotNumber("+" + key))
  {
    Decimal.OverflowFails(key);
  }

  /** "05" passes validation as index 5, yet no chain's lookup key is "05" */
  lemma ZeroPaddedKeyMatchesNoChain()
    ensures CheckIndex("05") == Success(5)
    ensures forall idx: nat :: Decimal.ToString(idx) != "05"
  {
    assert Decimal.AllDigits("05");
    assert Decimal.DigitsValue("05") == 5 by {
      assert "05"[..1] == "0" && "0"[..0] == [];
    }
    forall idx: nat ensures Decimal.ToString(idx) != "05" {
      Decimal.ToStringValue(idx);
    }
  }

  /** Keys "0", "10", "abc" and "+" are rejected, "5" and "+5" are accepted as 5 */
  lemma KeyExamples()
    ensures CheckIndex("0") == Failure(IndexOutOfRange(0))
    ensures CheckIndex("10") == Failure(IndexOutOfRange(10))
    ensures CheckIndex("abc") == Failure(IndexNotNumber("abc"))
    ensures CheckIndex("5") == Success(5)
    ensures CheckIndex("+5") == Success(5)
    ensures CheckIndex("+") == Failure(IndexNotNumber("+"))
  {
    assert "0"[..0] == [] && "5"[..0] == [];
    Decimal.PlusPrefixParsesSame("5");
    Decimal.LonePlusFails();
    assert "10"[..1] == "1" && "1"[..0] == [];
    assert !Decimal.IsDigit('a');
  }
}
