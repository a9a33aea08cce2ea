/** Failure-carrying results shared by the dispatch pipeline.

    The Python code signals failure by raising; each exception class that the
    pipeline raises on purpose becomes one constructor of `Error`. */
module Outcomes {

  /** The exceptions raised by the dispatch pipeline. */
  datatype Error =
    | MissingCredential        // EnvironmentError: API key absent or empty
    | NoValidRecipients        // ValueError: no row survived validation
    | MissingMergeKey(key: string) // KeyError: merge_info lacks a key the payload reads
    | MaxRetriesExceeded       // RuntimeError: every attempt of one request failed

  datatype Result<+T> = Success(value: T) | Failure(error: Error)

  datatype Option<+T> = None | Some(value: T)
}
