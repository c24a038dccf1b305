/** How a run of a contract ends. */
module Results {
  import opened Memories

  datatype Status = ReturnStatus | StopStatus | RevertStatus | ErrorStatus

  /** Gas left and the bytes returned. */
  datatype Result = Result(status: Status, gas: int, output: Memory)

  /** The range reported at the end of a run; one that leaves memory counts as empty. */
  function Reported(memory: Memory, offset: nat, size: nat): Memory {
    if offset + size <= |memory| then memory[offset..offset + size] else []
  }
}
