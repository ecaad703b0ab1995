/** Option and error-outcome types shared by the model, and a fact about sets its loops use. */
module Wrappers {

  /** A value that may be absent: the model's counterpart of a null pointer or a missing optional attribute. */
  datatype Option<+T> = None | Some(value: T)

  /** The outcome of an operation that either completes or stops with a runtime error. */
  datatype Outcome = Pass | Fail(message: string)

  /** A set that is not empty has a member: what a loop needs before it picks one to visit. */
  lemma NonEmptyHasMember<T>(s: set<T>) returns (x: T)
    requires s != {}
    ensures x in s
  {
    var y :| y in s;
    x := y;
  }
}
