/** The reconciler's state and configuration (`powermanager.__init__`). */
module Reconciler {
  import opened Tasks
  import opened Tracking

  /** `INDIGO_ORCHESTRATOR_MAX_INSTANCES`, `..._FORGET_MISSING_VMS` and
      `..._DROP_FAILING_VMS`. */
  datatype Config = Config(maxInstances: int, forgetMissing: int, dropFailing: int)

  /** The configuration defaults of `powermanager.__init__`. */
  const DEFAULT_CONFIG: Config := Config(0, 30, 30)

  /** `_mvs_seen`, `_pending_tasks` and the cached `_master_nodes_ids`. */
  datatype State = State(tracked: Tracked, pending: seq<Task>, masters: seq<string>)

  /** The guarantees every step keeps: the backlog holds no task twice, no
      tracked node is also queued for power-on, and no two tracked nodes share a
      VM id. */
  predicate Invariant(st: State)
  {
    && NoDuplicates(st.pending)
    && (forall t | t in st.pending && t.operation == POWER_ON :: t.nname !in st.tracked)
    && DistinctVmIds(st.tracked)
  }
}
