/** Small shared vocabulary: an optional value, an HTTP-style reply and the
    status codes the backend handlers return. */
module Common {

  datatype Option<T> = None | Some(value: T)

  /** A handler's reply: the HTTP status and, on success, the JSON payload. */
  datatype Response<T> = Response(status: int, body: Option<T>)

  const StatusOk := 200
  const StatusCreated := 201
  const StatusBadRequest := 400
  const StatusUnauthorized := 401
  const StatusNotFound := 404
  const StatusConflict := 409

  /** No two positions of `s` hold the same value. */
  predicate NoDuplicates<T(==)>(s: seq<T>) {
    forall i, j :: 0 <= i < j < |s| ==> s[i] != s[j]
  }
}
