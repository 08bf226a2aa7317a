/** Job records and their transitions (crates/common/src/lib.rs).
    A clock reading is a parameter: t0 is read before t1. */
module Jobs {
  import opened Wrappers

  type JobId = string

  type NodeId = string

  datatype JobStatus = Pending | Running | Completed | Failed | Cancelled

  datatype PreStageSpec = PreStageSpec(source: string, dest: string)

  datatype JobRuntime =
    | Wasm(source: string, sha256Hex: Option<string>)
    | Native(binary: string, sha256Hex: Option<string>)
    | Qemu(binary: string, sha256Hex: Option<string>)

  datatype JobSpec = JobSpec(name: string, runtime: JobRuntime, preStage: seq<PreStageSpec>)

  datatype JobArtifact = JobArtifact(
    name: string, storedPath: string, sizeBytes: Option<nat>, sha256Hex: Option<string>)

  datatype JobLogEntry = JobLogEntry(timestamp: nat, level: string, message: string)

  datatype JobInstance = JobInstance(
    id: JobId,
    originNodeId: NodeId,
    spec: JobSpec,
    status: JobStatus,
    submittedAt: nat,
    updatedAt: nat,
    startedAt: Option<nat>,
    completedAt: Option<nat>,
    exitCode: Option<int>,
    errorMessage: Option<string>,
    assignedNode: Option<NodeId>,
    logs: seq<JobLogEntry>,
    artifacts: seq<JobArtifact>)
  {
    function Start(node: NodeId, t0: nat, t1: nat): JobInstance {
      this.(status := Running, assignedNode := Some(node), startedAt := Some(t0), updatedAt := t1)
    }

    function Complete(code: int, t0: nat, t1: nat): JobInstance {
      this.(status := if code == 0 then Completed else Failed,
      exitCode := Some(code), completedAt := Some(t0), updatedAt := t1)
    }

    function Fail(error: string, t0: nat, t1: nat): JobInstance {
      this.(status := Failed, errorMessage := Some(error), completedAt := Some(t0), updatedAt := t1)
    }

    function Cancel(t0: nat, t1: nat): JobInstance {
      this.(status := Cancelled, completedAt := Some(t0), updatedAt := t1)
    }

    function AddLog(level: string, message: string, t0: nat, t1: nat): JobInstance {
      this.(logs := logs + [JobLogEntry(t0, level, message)], updatedAt := t1)
    }
  }

  function NewJob(id: JobId, origin: NodeId, spec: JobSpec, t0: nat, t1: nat): JobInstance {
    JobInstance(id, origin, spec, Pending, t0, t1, None, None, None, None, None, [], [])
  }

  // ---------- what a record always satisfies ----------

  /** What each status says about the other fields. */
  ghost predicate StatusConsistent(j: JobInstance) {
    match j.status
    case Pending => j.startedAt.None? && j.completedAt.None? && j.exitCode.None? && j.errorMessage.None?
    case Running => j.startedAt.Some? && j.assignedNode.Some?
    case Completed => j.exitCode == Some(0) && j.completedAt.Some?
    case Failed =>
      && j.completedAt.Some?
      && ((j.exitCode.Some? && j.exitCode.value != 0) || j.errorMessage.Some?)
    case Cancelled => j.completedAt.Some?
  }

  ghost predicate LogsSorted(logs: seq<JobLogEntry>) {
    forall i, k :: 0 <= i < k < |logs| ==> logs[i].timestamp <= logs[k].timestamp
  }

  /** No time in a record is later than its `updatedAt`, which is no later than `now`. */
  ghost predicate Timely(j: JobInstance, now: nat) {
    && j.updatedAt <= now
    && j.submittedAt <= j.updatedAt
    && (j.startedAt.Some? ==> j.startedAt.value <= j.updatedAt)
    && (j.completedAt.Some? ==> j.completedAt.value <= j.updatedAt)
    && (forall i :: 0 <= i < |j.logs| ==> j.logs[i].timestamp <= j.updatedAt)
    && LogsSorted(j.logs)
  }

  ghost predicate Sound(j: JobInstance, now: nat) {
    StatusConsistent(j) && Timely(j, now)
  }
}
