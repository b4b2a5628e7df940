/** Option and Result values used in place of Python's `None` and of the
    `HTTPException(status_code=404)` that the request handlers raise. */
module Wrappers {

  datatype Option<+T> = None | Some(value: T) {
    /** The value when present, `default` otherwise. */
    function GetOr(default: T): T {
      match this
      case Some(v) => v
      case None => default
    }
  }

  /** The one failure the store reports: the id names no record (HTTP 404,
      "Producto no encontrado"). */
  datatype StoreError = NotFound

  datatype Result<+T> = Success(value: T) | Failure(error: StoreError)
}
