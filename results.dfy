/** Outcomes shared by the version value and the version store. */
module Results {

  /** The failures the core reports, one kind per distinguishable Go error. */
  datatype Error =
    | TooManySegments   // Parse: more than three dot-separated segments
    | Syntax            // a segment is not a decimal number (strconv.ErrSyntax)
    | Range             // a segment does not fit in 64 bits (strconv.ErrRange)
    | NotFound          // the directory does not exist
    | IOError           // any other filesystem failure

  /** A value or the error that prevented it, like Go's `(T, error)` pair. */
  datatype Result<T> = Ok(value: T) | Err(error: Error)

  datatype Option<T> = None | Some(value: T)
}
