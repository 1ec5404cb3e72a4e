/** Outcome and error types shared by the filesystem model, the file manager
    and the key router: the model's stand-in for `std::io::Result`. */
module Io {

  datatype Option<+T> = None | Some(value: T)

  /** The `io::ErrorKind`s the model can produce. */
  datatype IoError =
    | NotFound
    | AlreadyExists
    | NotADirectory
    | IsADirectory
    | DirectoryNotEmpty
    | InvalidInput
    | ResourceBusy
    | Interrupted

  /** `io::Result<T>` */
  datatype Result<+T> = Success(value: T) | Failure(error: IoError)

  /** `io::Result<()>` */
  datatype Outcome = Ok | Err(error: IoError)
}
