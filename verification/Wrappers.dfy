module Wrappers {

  datatype Option<+T> = None | Some(value: T)

  /** What iterating over a map or set yields next: any element. */
  method AnyOf<T>(s: set<T>) returns (x: T)
    requires s != {}
    ensures x in s
  {
    x :| x in s;
  }
}
