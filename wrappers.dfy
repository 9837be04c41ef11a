/** Optional values and results with an error value, as the backend and the
    browser code use them: `None` stands for Python's `None` and JavaScript's
    `null`/`undefined`, `Err` for a raised exception or an error response. */
module Wrappers {

  datatype Option<+T> = None | Some(value: T)

  datatype Result<+T, +E> = Ok(value: T) | Err(error: E)
}

/** The error a FastAPI handler raises with `HTTPException(status_code, detail)`. */
module Http {

  datatype HttpError = HttpError(status: int, detail: string)
}
