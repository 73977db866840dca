/** Option and Result: a nullable value, and a value or the error that replaces it. */
module Wrappers {
  datatype Option<+T> = None | Some(value: T)

  datatype Result<+T, +E> = Success(value: T) | Failure(error: E)

  /** Two maps have the same keys and values, except perhaps at some keys. */
  ghost predicate AgreeOutside<K(!new), V>(a: map<K, V>, b: map<K, V>, keys: set<K>) {
    forall k :: k !in keys ==> (k in a <==> k in b) && (k in a && k in b ==> a[k] == b[k])
  }
}
