/**
 * The recorder's view of one encoder stream: whether its ffmpeg pipe is
 * alive, the writer thread's run flag (th_run_c_ or th_run_d_) and whether
 * the std::thread object is still joinable. Assigning a new std::thread to
 * a joinable one, or destroying a joinable one, terminates the process.
 */
module WriterThreads {
  import opened Wrappers

  datatype WriterThread = WriterThread(run: bool, joinable: bool)

  /** No writer: flag clear, nothing to join. */
  const NoThread: WriterThread := WriterThread(false, false)

  /** The process is terminated by std::terminate. */
  datatype ThreadFault = Terminated

  datatype StreamState = StreamState(pipeAlive: bool, thread: WriterThread)

  /** Neither pipe nor writer. */
  const Idle: StreamState := StreamState(false, NoThread)

  /**
   * Assigning a fresh writer when the flag is clear: terminates if the
   * previous thread object is still joinable.
   */
  function Launch(t: WriterThread): Result<WriterThread, ThreadFault>
  {
    if t.run then Success(t)
    else if t.joinable then Failure(Terminated)
    else Success(WriterThread(true, true))
  }

  /**
   * ensure_color_started / ensure_depth_started: nothing when video is off
   * or the pipe is alive; nothing when the pipe fails to start; otherwise
   * the pipe is alive and a writer is launched unless its flag is set.
   */
  function EnsureStarted(writeVideo: bool, s: StreamState, startOk: bool): Result<StreamState, ThreadFault>
  {
    if !writeVideo || s.pipeAlive || !startOk then Success(s)
    else
      match Launch(s.thread)
      case Success(t) => Success(StreamState(true, t))
      case Failure(e) => Failure(e)
  }

  /** The writer loop leaving after a failed pipe write: flag cleared, the finished thread still joinable. */
  function ExitAfterWriteFailure(s: StreamState): StreamState
  {
    StreamState(s.pipeAlive, WriterThread(false, s.thread.joinable))
  }

  /** stop() as written: join only when exchanging the flag to false finds it set; then the pipe stops. */
  function StopStreamAsWritten(s: StreamState): StreamState
  {
    StreamState(false, if s.thread.run then NoThread else s.thread)
  }

  /** stop() as intended: clear the flag, join whatever thread is joinable, stop the pipe. */
  function StopStream(s: StreamState): StreamState
  {
    Idle
  }

  /** The std::thread member can be destroyed or reassigned without terminating. */
  predicate SafeToDestroy(s: StreamState) {
    !s.thread.joinable
  }

  /**
   * What the recorder keeps true of each stream: a set flag belongs to a
   * live thread, and a thread that has not been joined belongs to the
   * current pipe session.
   */
  predicate StreamOk(s: StreamState) {
    (s.thread.run ==> s.thread.joinable) && (s.thread.joinable ==> s.pipeAlive)
  }

  /** Starting a stream never terminates and keeps the stream consistent. */
  lemma EnsureStartedKeepsStreamOk(writeVideo: bool, s: StreamState, startOk: bool)
    requires StreamOk(s)
    ensures EnsureStarted(writeVideo, s, startOk).Success?
    ensures StreamOk(EnsureStarted(writeVideo, s, startOk).value)
    ensures EnsureStarted(writeVideo, s, startOk).value.pipeAlive <==> s.pipeAlive || (writeVideo && startOk)
  {
  }

  /** A failed write leaves the stream consistent. */
  lemma WriteFailureKeepsStreamOk(s: StreamState)
    requires StreamOk(s)
    ensures StreamOk(ExitAfterWriteFailure(s)) && !ExitAfterWriteFailure(s).thread.run
  {
  }

  /** Corrected: after stop() nothing is left to join and the next start launches a writer. */
  lemma StopStreamLeavesNothingToJoin(s: StreamState)
    ensures SafeToDestroy(StopStream(s)) && StreamOk(StopStream(s))
    ensures EnsureStarted(true, StopStream(s), true) == Success(StreamState(true, WriterThread(true, true)))
  {
  }

  /**
   * The correction changes stop() only for a writer that has already
   * cleared its flag and is still joinable; every other state stops alike.
   */
  lemma StopStreamCorrectionOnlyJoins(s: StreamState)
    ensures StopStreamAsWritten(s) == StopStream(s) <==> s.thread.run || !s.thread.joinable
    ensures StopStreamAsWritten(s).thread.joinable ==> s.thread == WriterThread(false, true)
  {
  }

  /**
   * As written: a stream whose writer failed is consistent, but stop() does
   * not join the finished writer, so destroying the recorder, or starting
   * the stream again in a later session, terminates the process.
   */
  lemma StopStreamAsWrittenAfterWriteFailure()
    ensures var failed := ExitAfterWriteFailure(EnsureStarted(true, Idle, true).value);
      && StreamOk(failed)
      && !SafeToDestroy(StopStreamAsWritten(failed))
      && !StreamOk(StopStreamAsWritten(failed))
      && EnsureStarted(true, StopStreamAsWritten(failed), true) == Failure(Terminated)
  {
  }
}
