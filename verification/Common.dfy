/** What several models share. */
module Common {

  datatype Option<T> = None | Some(value: T)

  /** Something outside the framework may go wrong, unless that is excluded. */
  method Fault(faultless: bool) returns (happens: bool)
    ensures happens ==> !faultless
  {
    happens := *;
    happens := happens && !faultless;
  }
}
