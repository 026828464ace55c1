/** Shared vocabulary of the model. */
module Prelude {

  /** A document or row identifier.  Identifiers are opaque to the services; only equality and,
      where a query sorts by them, their order matter. */
  type Id = int

  datatype Option<+T> = None | Some(value: T)

  /** The ways a service call can throw. */
  datatype Error = NotFound | Conflict | Forbidden | Validation | External | Database

  datatype Outcome<+T> = Ok(value: T) | Err(error: Error)

  /** A smaller set has no more elements. */
  lemma SubsetCardinality<T>(a: set<T>, b: set<T>)
    requires a <= b
    ensures |a| <= |b|
  {
    if a != {} {
      var x :| x in a;
      SubsetCardinality(a - {x}, b - {x});
    }
  }

  lemma Member<T>(s: set<T>) returns (x: T)
    requires s != {}
    ensures x in s
  {
    x :| x in s;
  }

  ghost function AnyOf<T>(s: set<T>): (x: T)
    requires s != {}
    ensures x in s
  {
    var x :| x in s;
    x
  }
}
