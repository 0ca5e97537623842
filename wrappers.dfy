/** The optional values the store hands back (a zscore, a get) and the
    optional payload of a reply. */
module Wrappers {

  datatype Option<+T> = None | Some(value: T) {

    /** The value, or `default` when there is none (oatpp's `getValue(default)`). */
    function GetOr(default: T): T {
      match this
      case Some(v) => v
      case None => default
    }
  }
}
