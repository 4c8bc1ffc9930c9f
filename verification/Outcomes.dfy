/**
 * The error model shared by the kdumptool modules.
 *
 * kdumptool reports failures with C++ exceptions: `KError` (a logic or
 * protocol error carrying a message), `KSystemError` (an OS failure carrying
 * errno) and `std::out_of_range` (an unknown key).  Here an operation that can
 * throw returns a `Result` or an `Outcome` instead.
 */
module Outcomes {

  /** The reason an operation failed, by the exception the source throws. */
  datatype Error =
    | KError(reason: Reason)
    | KSystemError(reason: Reason, errno: int)
    | OutOfRange

  /** Which of the source's `throw` sites produced a KError or KSystemError. */
  datatype Reason =
    // process.cc
    | NoSubprocess          // checkSpawned(): no subprocess spawned
    | InvalidPipeDirection  // spawn(): invalid pipe direction
    | CannotCreatePipe      // spawn(): cannot create pipe
    | ForkFailed            // spawn(): fork failed
    | CannotSendSignal      // kill(): cannot send signal
    | CannotGetState        // wait(): cannot get state of PID
    | WrongPidExited        // wait(): spawned PID p but PID q exited
    | PollFailed            // monitor(): poll() failed
    | CannotReadStdin       // execute(): cannot get data for stdin pipe
    | CannotWriteStdin      // execute(): cannot send data to stdin pipe
    | CannotReadStdout      // execute(): cannot get data from stdout pipe
    | CannotReadStderr      // execute(): cannot get data from stderr pipe
    // calibrate.cc
    | CannotOpen            // open of a sysfs/procfs file failed
    | WrongNumberFormat
    | WrongDelimiter
    | ReadFailed
    | InvalidContent
    | InvalidSlabinfoLine
    | InvalidVersion
    | UnsupportedVersion
    // fileutil.cc
    | MkdirFailed
    | ShowmountFailed
    | NotExported
    | MountFailed
    | UmountFailed

  datatype Result<T> = Ok(value: T) | Err(error: Error)

  datatype Outcome = Pass | Fail(error: Error)

  /** An optional value; `Nothing` plays the role of a NULL pointer. */
  datatype Option<T> = Nothing | Some(value: T)
}
