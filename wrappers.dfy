/** Optional values and Java-style abrupt completion, shared by every module of the model. */
module Wrappers {

  /** A value that may be absent: Java's `null` reference. */
  datatype Option<+T> = None | Some(value: T)

  /** The exceptions a modelled call can end with. */
  datatype JavaException =
    | NullPointer        // a method called on a `null` reference
    | IndexOutOfBounds   // `substring`, `List.get` or an array index out of range
    | NumberFormat       // `Integer.valueOf` on text that is not a 32-bit decimal
    | Raised             // any exception of a collaborator outside the model (a rule checker, the build-file parser)

  /** A call either completes normally with a value or throws. */
  datatype Result<+T> = Ok(value: T) | Thrown(exception: JavaException)

  /**
   * `keys` lists each element of `s` exactly once, in an order left open: how
   * the model takes the iteration order of a `HashMap` key set or a `HashSet`.
   */
  ghost predicate Enumerates<T(!new)>(keys: seq<T>, s: set<T>) {
    (forall i, j :: 0 <= i < j < |keys| ==> keys[i] != keys[j])
    && (forall k :: k in keys <==> k in s)
  }
}
