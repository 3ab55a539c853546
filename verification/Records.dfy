/** The records of the context store that the compression engine reads and writes. */
module Records {
  import opened Wrappers

  datatype StepType = User | Tool | Reasoning | Plan | Failed | Other(name: string)

  /** What is compressed or hidden later is still here as it was ingested. */
  datatype StepRecord = StepRecord(stepId: int, kind: StepType, content: string, tokenCount: nat, transient: bool,
                                   transientRound: int)

  /** The compression state of an active step. */
  datatype RefRecord = RefRecord(stepId: int, level: int, refCount: nat, lastRefAtStep: Option<int>, strength: real,
                                 taskGroupId: int, crossGroupRefs: nat, heat: int,
                                 pendingL4: bool, lockL0: bool)
}
