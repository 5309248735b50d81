/** Failure-compatible wrappers shared by both stages of the translator. */
module Wrappers {

  datatype Option<+T> = None | Some(value: T)

  /** Why a run aborts. The source throws (null, a string or a TypeError);
      only the cause is kept, never the message text. */
  datatype Failure =
    | UnsupportedBlockAttribute   // an `@@` line other than `@@index`/`@@unique`
    | UnsupportedFieldAttribute   // an `@` token the field parser does not know
    | MalformedFieldLine          // a model line the field regex does not match
    | RelationTargetMissing       // a staged relation whose field is not in the block
    | UnsupportedScalarType       // a base type outside the generator's table
    | UnsupportedActionWord       // an onDelete word outside the action table
    | UnsupportedProvider         // a datasource provider other than "postgresql"
    | MissingUrl                  // a datasource without a `url` value

  datatype Result<+T> = Ok(value: T) | Err(error: Failure) {
    predicate IsFailure() { Err? }

    function PropagateFailure<U>(): Result<U>
      requires Err?
    {
      Err(error)
    }

    function Extract(): T
      requires Ok?
    {
      value
    }
  }

  /** Concatenation regroups. Stated once, so that proofs about functions
      returning sequences need not rediscover it element by element. */
  lemma AppendAssoc<T>(a: seq<T>, b: seq<T>, c: seq<T>)
    ensures a + (b + c) == (a + b) + c
  {
  }

  /** A non-empty sequence is its prefix followed by its last element. */
  lemma InitLast<T>(s: seq<T>)
    requires s != []
    ensures s == s[..|s| - 1] + [s[|s| - 1]]
  {
  }
}
