/** Small shared vocabulary: optional values, results, timestamps and the store's error. */
module Common {

  datatype Option<T> = None | Some(value: T)

  datatype Result<T, E> = Success(value: T) | Failure(error: E)

  /** Python's `x or default` on a value that is either None or always truthy (a datetime). */
  function OrElse<T>(o: Option<T>, default: T): T
  {
    match o
    case Some(v) => v
    case None => default
  }

  /** A datetime, as whole seconds on a fixed time line. */
  type Timestamp = int

  /** `timedelta(days=1)` in seconds. */
  const DAY: int := 86400

  /** What the database raises when a commit would break a constraint of the schema. */
  datatype IntegrityError = UniqueViolation(column: string) | NotNullViolation(column: string)

  ghost predicate Distinct<T>(s: seq<T>)
  {
    forall i, j :: 0 <= i < j < |s| ==> s[i] != s[j]
  }
}
