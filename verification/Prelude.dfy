/** Values shared by every module: absent values and the outcome of an operation. */
module Prelude {

  datatype Option<+T> = None | Some(value: T)

  /**
    * The codes the service raises as ValueError("...") and the routers map to HTTP errors; Uncaught is any
    * other exception.
    */
  datatype Error =
    | Validation
    | NotFound
    | Forbidden
    | StateConsumed
    | VersionConflict
    | IdempotencyConflict
    | PolicyUndeclared
    | PolicyDeny
    | RequireReauth
    | ApprovalExpired
    | FourEyes
    | ParamHashMismatch
    | Uncaught
    | InvalidCursor

  datatype Result<+T> = Ok(value: T) | Err(error: Error)

  ghost predicate NoDuplicates<T(!new)>(s: seq<T>) {
    forall i, j :: 0 <= i < j < |s| ==> s[i] != s[j]
  }

  /** The members of a sequence. */
  function Members<T(!new,==)>(s: seq<T>): (r: set<T>)
    ensures forall x :: x in r <==> x in s
  {
    set x | x in s
  }

  /** A sequence has as many members as elements exactly when no element repeats. */
  lemma {:induction false} DistinctCount<T(!new)>(s: seq<T>)
    ensures |Members(s)| <= |s|
    ensures |Members(s)| == |s| <==> NoDuplicates(s)
  {
    if s != [] {
      var init, last := s[..|s| - 1], s[|s| - 1];
      DistinctCount(init);
      assert s == init + [last];
      assert Members(s) == Members(init) + {last};
      assert NoDuplicates(s) <==> NoDuplicates(init) && last !in init;
    }
  }

  /** A subset with as many elements is the whole set. */
  lemma {:induction false} SubsetCount<T>(a: set<T>, b: set<T>)
    requires a <= b
    ensures |a| <= |b|
    ensures |a| == |b| <==> a == b
  {
    assert b == a + (b - a);
    assert |b| == |a| + |b - a|;
  }
}
