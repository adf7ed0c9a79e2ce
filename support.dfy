/**
 * The default-or-override primitive of the configuration module
 * (`support::OptionDefault`): a resolved setting together with whether the
 * user supplied it or it came from the compiled-in default.
 */
module Support {
  import opened Wrappers

  datatype OptionDefault<T> = Explicit(value: T) | Defaulted(value: T) {

    /** `is_some()`: the user supplied this setting */
    predicate IsSome() {
      Explicit?
    }
  }

  /** `OptionDefault::new(opt, default)` */
  function New<T>(opt: Option<T>, default: T): (r: OptionDefault<T>)
    ensures r.IsSome() <==> opt.Some?
    ensures opt.Some? ==> r.value == opt.value
    ensures opt.None? ==> r.value == default
  {
    match opt
    case Some(v) => Explicit(v)
    case None => Defaulted(default)
  }

  /** `eq_some(&v)`: the user supplied this setting and it equals `v` */
  predicate EqSome<T(==)>(o: OptionDefault<T>, v: T) {
    o.IsSome() && o.value == v
  }
}
