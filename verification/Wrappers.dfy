/** Stock result types and one fact about finite sets, shared by every module. */
module Wrappers {

  datatype Option<+T> = None | Some(value: T)

  datatype Result<+T, +E> = Ok(value: T) | Err(error: E)

  /** There is a number above all numbers of a finite set. */
  lemma {:induction false} AboveAll(ids: set<nat>) returns (bound: nat)
    ensures forall id | id in ids :: id < bound
    decreases ids
  {
    bound := 0;
    if ids != {} {
      var id :| id in ids;
      bound := AboveAll(ids - {id});
      assert forall other | other in ids :: other == id || other in ids - {id};
      bound := if id < bound then bound else id + 1;
    }
  }
}
