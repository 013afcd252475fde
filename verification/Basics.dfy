/** The value types every module shares. */
module Basics {
  datatype Option<+T> = None | Some(value: T)

  datatype Outcome<+T> = Ok(value: T) | Err(error: Error)

  /** The errors of the file store. Io stands for any file-system call that fails. */
  datatype Error =
    | NotFound
    | CorruptMetadata
    | StoragePaused
    | UploadNotFound
    | OffsetConflict
    | UploadIncomplete
    | ChecksumMismatch
    | UploadTooLarge
    | ChunkSize
    | RestoreConflict
    | FileExists
    | QuotaExceeded
    | InvalidUpload
    | ReadFailed
    | UsageUnavailable
    | Io

  newtype byte = b: int | 0 <= b < 256
  type Bytes = seq<byte>

  /** What a request body delivers before it ends, and whether it ends with an error. */
  datatype Body = Body(bytes: Bytes, fails: bool)

  /** A validated file or upload identifier. */
  datatype Id = Id(text: string)
}
