/** Shared vocabulary: optional values, results with failures, and the
    failures the routing core raises (HTTP errors and the Python exceptions
    that escape it). */
module Base {

  datatype Option<+T> = None | Some(value: T) {
    function GetOr(default: T): T {
      match this
      case Some(v) => v
      case None => default
    }
  }

  datatype Result<+T> = Ok(value: T) | Err(error: Failure) {
    predicate IsFailure() { Err? }

    function PropagateFailure<U>(): Result<U>
      requires Err?
    {
      Err(error)
    }

    function Extract(): T
      requires Ok?
    {
      value
    }
  }

  /** An `Error(status)` of the library (it carries its own response headers),
      or a Python exception that propagates out of the core unhandled. */
  datatype Failure =
    | HttpError(status: int, headers: map<string, string>)
    | ValueError
    | TypeError
    | PatternError

  // HTTP status codes used by the core.
  const OK := 200
  const NO_CONTENT := 204
  const BAD_REQUEST := 400
  const NOT_FOUND := 404
  const METHOD_NOT_ALLOWED := 405
  const NOT_ACCEPTABLE := 406
  const UNSUPPORTED_MEDIA_TYPE := 415

  function Status(code: int): Failure {
    HttpError(code, map[])
  }

  /** Updating after a merge is merging the update: what a loop that
      writes entries one by one into a dictionary relies on. */
  lemma MergeUpdate<K, V>(a: map<K, V>, b: map<K, V>, k: K, v: V)
    ensures a + b[k := v] == (a + b)[k := v]
  {
  }

  /** `sys.maxsize` on a 64-bit interpreter. */
  const MAXSIZE: int := 0x7fff_ffff_ffff_ffff
}
