/**
 * The operating-system calls of the shell, reduced to the outcomes the shell
 * observes. Every fork, kill, tcsetpgrp, waitpid, open and dup2 of the model
 * is an input of one of these types rather than an effect.
 */
module Os {

  /** A process id as fork hands it to the parent: always positive. */
  type Pid = p: int | p > 0 witness 1

  /** A call that either succeeds or reports failure (tcsetpgrp, kill, open followed by dup2). */
  datatype Sys = Ok | Fail

  /**
   * What waitpid(pid, &status, WUNTRACED) reports: the child stopped
   * (WIFSTOPPED holds), the child exited or was killed, or the call failed.
   */
  datatype WaitResult = ChildStopped | ChildTerminated | WaitError

  /** fork as the parent sees it. */
  datatype Fork = Forked(pid: Pid) | ForkFailed

  /** The foreground process group of the controlling terminal. */
  datatype Owner = Shell | Group(pgid: Pid)
}
