/** `Option<T>` and getting a value out of it. */
module EnumBasics {
  import opened RustInts
  import opened Std

  /** The local `unwrap_or`: the wrapped value, or the default for `None`. */
  function UnwrapOr<T>(myOption: Option<T>, defaultValue: T): (r: T)
    ensures myOption.Some? ==> r == myOption.value
    ensures myOption.None? ==> r == defaultValue
  {
    match myOption
    case Some(val) => val
    case None => defaultValue
  }

  /** The local `unwrap_or` and the standard library's `Option::unwrap_or` agree. */
  lemma UnwrapOrIsStd<T>(myOption: Option<T>, defaultValue: T)
    ensures UnwrapOr(myOption, defaultValue) == myOption.UnwrapOr(defaultValue)
  {
  }

  /**
   * `option_enum_basics`: the explicit matches (which are `UnwrapOr` with the
   * defaults 0, ' ' and -1), the local `unwrap_or` and the standard one all
   * give 5, 'e' and -1.
   */
  lemma OptionEnumBasics()
    ensures UnwrapOr(Some(5 as i32), 0) == 5 && UnwrapOr(Some(5 as i32), -1) == 5
    ensures UnwrapOr(Some('e'), ' ') == 'e'
    ensures UnwrapOr(None, -1 as i32) == -1
    ensures Some(5 as i32).UnwrapOr(-1) == 5 && Some('e').UnwrapOr(' ') == 'e'
    ensures None.UnwrapOr(-1 as i32) == -1
  {
  }
}
