/** Values shared by the whole report: optional values, results and the ways building a report fails. */
module Common {

  /** A filesystem path as the report handles it: plain text. */
  type Path = string

  /** The opaque identifier of one completed scan of the filesystem. */
  type ScanId = string

  datatype Option<+T> = None | Some(value: T)

  datatype Result<+T, +E> = Success(value: T) | Failure(error: E)

  /** Why building the report for one directory stops. */
  datatype Error =
    | NoScan       // no completed scan covers the path; the program raises ValueError
    | MissingSize  // a breakdown label has a count but no size; the program raises KeyError
}
