/** Identifiers, nullable values and outcomes shared by the post and user components. */
module Common {

  /** Database identifiers are Java `Long`s; the model does not bound them. */
  type PostId = int
  type UserId = int

  /** A `LocalDateTime` assigned by the persistence layer; only equality matters here. */
  type Timestamp = int

  /** A nullable reference, or a `java.util.Optional`. */
  datatype Option<+T> = None | Some(value: T)

  /** The exceptions the services and repositories raise, one constructor per condition. */
  datatype Failure =
    | UserNotFound  // "User not found", "User not found for ID: ...", "User not found."
    | PostNotFound  // "Post not found", "Post not found with ID: ...", EntityNotFoundException
    | EmailInUse    // "Email already in use"
    | NullId        // a repository lookup by a null id (IllegalArgumentException)

  /** A value returned normally, or the exception thrown instead. */
  datatype Result<+T> = Ok(value: T) | Err(error: Failure)

  ghost predicate Distinct<K>(ks: seq<K>)
  {
    forall i, j | 0 <= i < j < |ks| :: ks[i] != ks[j]
  }

  /** The keys of a stored collection in the order the backing store yields them:
      every key exactly once, in an order the model leaves open. */
  method Enumerate<K(==)>(s: set<K>) returns (ks: seq<K>)
    ensures Distinct(ks) && |ks| == |s|
    ensures forall k :: k in ks <==> k in s
  {
    ks := [];
    var rest := s;
    while rest != {}
      invariant rest <= s
      invariant Distinct(ks)
      invariant |ks| + |rest| == |s|
      invariant forall k :: k in ks <==> k in s && k !in rest
      decreases |rest|
    {
      var k :| k in rest;
      ks := ks + [k];
      rest := rest - {k};
    }
  }
}
