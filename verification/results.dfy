/** An optional value and a value-or-error result. */
module Results {

  /** A value that may be absent (a dictionary key that is missing, a scan
      that found nothing). */
  datatype Option<+T> = None | Some(value: T)

  /** Either a computed value or the error that stopped the computation. */
  datatype Result<+T, +E> = Ok(value: T) | Err(error: E)
}
