/** What the services share: an optional value, a value or an error, and unused numbers. */
module Wrappers {

  datatype Option<+T> = None | Some(value: T)

  /** An exception of the source is an `Err`; `:-` passes it on. */
  datatype Result<+T, +E> = Ok(value: T) | Err(error: E) {

    predicate IsFailure() {
      Err?
    }

    function PropagateFailure<U>(): Result<U, E>
      requires Err?
    {
      Err(error)
    }

    function Extract(): T
      requires Ok?
    {
      value
    }
  }

  /** There is always a key that is not in use. */
  lemma FreshKey(used: set<nat>) returns (key: nat)
    ensures key !in used
    ensures forall k | k in used :: k < key
  {
    if k :| k in used {
      var above := FreshKey(used - {k});
      key := if k < above then above else k + 1;
      assert forall x | x in used :: x == k || x in used - {k};
    } else {
      key := 0;
    }
  }
}
