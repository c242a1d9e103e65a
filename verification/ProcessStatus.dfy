/** How a process can end, as the registry and the exec tool both record it. */
module ProcessStatus {
  type Signal = string

  const SIGKILL: Signal := "SIGKILL"

  datatype Status = Completed | Failed
}
