/** Optional values and the failures the views raise. */
module Results {

  /** A value that may be absent: a date never set, a form field that did not parse. */
  datatype Option<+T> = None | Some(value: T)

  /** NotFound is Django's Http404 (get_object_or_404, DoesNotExist);
      PermissionDenied is the 403 raised by the ownership and visibility checks. */
  datatype Error = NotFound | PermissionDenied

  /** The outcome of a view: a value, or the error it raises. */
  datatype Result<+T> = Ok(value: T) | Err(error: Error)
}
