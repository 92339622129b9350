/** The exceptions that can end a pipeline run, as values. */
module Errors {
  import opened Retry

  datatype Error =
    /** an HTTP call that failed on every try (the last try's error) */
    | Network(net: NetError)
    /** `FileNotFoundError` from reading or removing a path that does not exist */
    | FileNotFound(path: string)

  datatype Result<T> = Ok(value: T) | Err(error: Error)

  datatype Option<T> = None | Some(value: T)
}
