/** Result types shared by every component. */
module Common {
  /** A value that may be absent: a missing dict key, or Python's None. */
  datatype Option<+T> = None | Some(value: T) {
    function GetOr(default: T): T {
      match this
      case Some(v) => v
      case None => default
    }
  }

  /** The outcome of an operation that may raise: its value, or what was raised. */
  datatype Result<+T, +E> = Ok(value: T) | Err(error: E)

  lemma SomeElement(s: set<int>)
    ensures s == {} || exists d :: d in s
  {
    if forall d :: d !in s {
      assert s == {};
    }
  }
}
