/** The fields of net.lingala.zip4j.progress.ProgressMonitor that the orchestrator writes,
    and its two terminal calls. */
module Progress {
  import opened Model

  const OperationExtract: int := 1
  const StateReady: int := 0
  const StateBusy: int := 1
  const ResultCancelled: int := 3

  /** Which terminal call was made last. */
  datatype Ending = Unended | EndedSuccess | EndedError(cause: ZipError)

  class ProgressMonitor {
    var currentOperation: int
    var totalWork: Long
    var state: int
    var percentDone: int
    var fileName: string
    var result: int
    var ending: Ending

    /** The caller's thread raises the cancel flag concurrently; isCancelAllTasks answers
        true exactly at the polls (counted from 0) in cancelPolls. */
    const cancelPolls: set<nat>
    var polls: nat

    constructor (cancelPolls: set<nat>)
      ensures this.cancelPolls == cancelPolls && polls == 0
      ensures state == StateReady && ending == Unended
    {
      this.cancelPolls := cancelPolls;
      polls := 0;
      currentOperation, totalWork, state, percentDone := 0, 0, StateReady, 0;
      fileName, result, ending := "", 0, Unended;
    }

    /** isCancelAllTasks: one poll of the cancel flag. */
    method IsCancelAllTasks() returns (c: bool)
      modifies this`polls
      ensures polls == old(polls) + 1
      ensures c == (old(polls) in cancelPolls)
    {
      c := polls in cancelPolls;
      polls := polls + 1;
    }

    /** endProgressMonitorSuccess. */
    method EndSuccess()
      modifies this`ending
      ensures ending == EndedSuccess
    {
      ending := EndedSuccess;
    }

    /** endProgressMonitorError: records the failure. */
    method EndError(cause: ZipError)
      modifies this`ending
      ensures ending == EndedError(cause)
    {
      ending := EndedError(cause);
    }
  }
}
