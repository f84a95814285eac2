/** Option and Result, and the errors the copier's file-system calls report. */
module Results {

  datatype Option<T> = None | Some(value: T)

  /** The failures that a `?` in the copier propagates, plus the model's own iteration bound. */
  datatype Error =
    | SourceMissing    // the source root does not exist
    | ListFailed       // read_dir failed
    | CreateFailed     // create_dir_all failed
    | CopyFailed       // copy failed
    | RemoveFailed     // remove_file or remove_dir_all failed
    | FuelExhausted    // the model stopped the work-list loop after its iteration bound

  datatype Result<T> = Ok(value: T) | Err(error: Error)
}
