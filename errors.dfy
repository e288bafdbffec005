/** src/err.rs: the top-level error type. Foreign payloads (dlopen, I/O) are dropped. */
module Err {
  datatype Error =
    | EnvAllocFailed
    | NotEnoughThreads
    | TooManyThreadsForSpinner
    | LockReleaseFailed
    | DlopenFailed
    | LockPoisoned
    | ThreadPanic
    | IoError
}

/** src/config/err.rs: configuration errors. */
module ConfigErr {
  import Text

  datatype Error =
    | BadCheckStrategy(s: string)
    | BadCheckOutcome(s: string)
    | BadPermuteStrategy(s: string)
    | BadSyncStrategy(s: string)
    | BadIterationCount(kind: Text.IntErrorKind)
    | BadPeriod(kind: Text.IntErrorKind)
    | Deserialize
    | Serialize
}

/** src/ux/err.rs: command-line errors. */
module UxErr {
  import ConfigErr

  datatype Error = Config(e: ConfigErr.Error) | NoInput
}

/** src/ux/out/err.rs: output errors. */
module OutErr {
  datatype Error = BadOutputter(s: string) | Io | Json
}
