/** Small value types shared by every module of the survey model. */
module Common {

  /** A value that may be absent: SQL NULL, a missing JSON key, or a failed conversion. */
  datatype Option<T> = None | Some(value: T)

  /** An instant as stored in a `timestamp` column; the model only compares instants for equality. */
  type Timestamp = int
}
