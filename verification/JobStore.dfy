/** The state a JobManager keeps and persists, and what each of its operations
    does to it (crates/agent/src/job_manager.rs). Everything here is a value:
    the class JobManager and the cluster protocol are both proved against it. */
module JobStore {
  import opened Wrappers
  import opened Text
  import opened Jobs

  datatype Store = Store(jobs: map<JobId, JobInstance>, nextId: nat)

  function DefaultStore(): Store {
    Store(map[], 1)
  }

  /** The readings of the clock one operation takes, in order; `mark` is the one
      taken by `mark_update` after the state lock is released. */
  datatype Reads = Reads(t0: nat, t1: nat, t2: nat, t3: nat, mark: nat) {
    predicate Ordered() {
      t0 <= t1 <= t2 <= t3 <= mark
    }
  }

  datatype Op =
    | Submit(spec: JobSpec, origin: Option<NodeId>, chosenId: Option<JobId>)
    | Assign(jobId: JobId, node: NodeId)
    | Start(jobId: JobId)
    | Complete(jobId: JobId, code: int)
    | Fail(jobId: JobId, error: string)
    | Cancel(jobId: JobId)
    | AddLog(jobId: JobId, level: string, message: string)
    | AddArtifact(jobId: JobId, artifact: JobArtifact)
    | StageDigest(jobId: JobId, name: string, digest: string)

  function OriginOf(self: NodeId, op: Op): NodeId
    requires op.Submit?
  {
    if op.origin.Some? then op.origin.value else self
  }

  function SubmittedId(self: NodeId, s: Store, op: Op): JobId
    requires op.Submit?
  {
    match op.chosenId
    case Some(id) => id
    case None => JobIdOf(OriginOf(self, op), s.nextId)
  }

  function SubmittedJob(self: NodeId, s: Store, op: Op, r: Reads): JobInstance
    requires op.Submit?
  {
    NewJob(SubmittedId(self, s, op), OriginOf(self, op), op.spec, r.t0, r.t1)
    .AddLog("info", "Job submitted", r.t2, r.t3)
  }

  /** The position of the first artifact called `name`, or the number of artifacts. */
  function FirstNamed(artifacts: seq<JobArtifact>, name: string): (k: nat)
    ensures k <= |artifacts|
    ensures k < |artifacts| ==> artifacts[k].name == name
    ensures forall i :: 0 <= i < k ==> artifacts[i].name != name
  {
    if artifacts == [] || artifacts[0].name == name then 0 else 1 + FirstNamed(artifacts[1..], name)
  }

  /** The record an operation leaves behind when the job is present. */
  function Transition(j: JobInstance, op: Op, r: Reads): JobInstance
    requires !op.Submit?
  {
    match op
    case Assign(_, node) =>
      j.(assignedNode := Some(node))
      .AddLog("info", "Job assigned to node " + node, r.t0, r.t1)
      .(updatedAt := r.t2)
    case Start(_) =>
      j.Start(if j.assignedNode.Some? then j.assignedNode.value else "unknown", r.t0, r.t1)
      .AddLog("info", "Job started", r.t2, r.t3)
    case Complete(_, code) =>
      j.Complete(code, r.t0, r.t1)
      .AddLog("info", "Job completed with exit code " + SignedDecimal(code), r.t2, r.t3)
    case Fail(_, error) =>
      j.Fail(error, r.t0, r.t1).AddLog("error", "Job failed: " + error, r.t2, r.t3)
    case Cancel(_) =>
      if j.status == Pending || j.status == Running
      then j.Cancel(r.t0, r.t1).AddLog("warn", "Job cancelled", r.t2, r.t3)
      else j
    case AddLog(_, level, message) => j.AddLog(level, message, r.t0, r.t1)
    case AddArtifact(_, artifact) => j.(artifacts := j.artifacts + [artifact], updatedAt := r.t0)
    case StageDigest(_, name, digest) =>
      var k := FirstNamed(j.artifacts, name);
      if k < |j.artifacts|
      then j.(artifacts := j.artifacts[k := j.artifacts[k].(sha256Hex := Some(digest))], updatedAt := r.t0)
      else j
  }

  function Apply(self: NodeId, s: Store, op: Op, r: Reads): Store {
    if op.Submit? then
      Store(s.jobs[SubmittedId(self, s, op) := SubmittedJob(self, s, op, r)],
            if op.chosenId.None? then s.nextId + 1 else s.nextId)
    else if op.jobId in s.jobs then
      s.(jobs := s.jobs[op.jobId := Transition(s.jobs[op.jobId], op, r)])
    else s
  }

  /** Whether the operation goes on to write jobs.json. */
  predicate Saves(s: Store, op: Op) {
    match op
    case AddLog(_, _, _) => false
    case StageDigest(_, _, _) => false
    case Cancel(id) => id in s.jobs && (s.jobs[id].status == Pending || s.jobs[id].status == Running)
    case _ => true
  }

  function TouchedId(self: NodeId, s: Store, op: Op): JobId {
    if op.Submit? then SubmittedId(self, s, op) else op.jobId
  }

  /** The clock does not go back: no reading is earlier than the stamp of the
      record the operation finds. */
  predicate InTime(self: NodeId, s: Store, op: Op, r: Reads) {
    r.Ordered() && (TouchedId(self, s, op) in s.jobs ==> s.jobs[TouchedId(self, s, op)].updatedAt <= r.t0)
  }

  function Latest(a: nat, b: nat): nat {
    if a >= b then a else b
  }

  // ---------- jobs.json ----------

  function RepairJob(self: NodeId, j: JobInstance): JobInstance {
    var j1 := if j.updatedAt == 0 then j.(updatedAt := j.submittedAt) else j;
    if j1.originNodeId == "" then j1.(originNodeId := self) else j1
  }

  function Repair(self: NodeId, s: Store): Store {
    s.(jobs := map id | id in s.jobs :: RepairJob(self, s.jobs[id]))
  }

  /** What a fresh manager holds after `load_from_disk`. */
  function Loaded(self: NodeId, disk: Option<Store>): Store {
    if disk.Some? then Repair(self, disk.value) else DefaultStore()
  }

  // ---------- merging ----------

  function MergeOne(m: map<JobId, JobInstance>, j: JobInstance): map<JobId, JobInstance> {
    if j.id !in m || j.updatedAt > m[j.id].updatedAt then m[j.id := j] else m
  }

  function MergeAll(m: map<JobId, JobInstance>, l: seq<JobInstance>): map<JobId, JobInstance> {
    if l == [] then m else MergeOne(MergeAll(m, l[..|l| - 1]), l[|l| - 1])
  }

  // ---------- invariants of one store ----------

  ghost predicate Keyed(m: map<JobId, JobInstance>) {
    forall id :: id in m ==> m[id].id == id
  }

  ghost predicate SoundJobs(m: map<JobId, JobInstance>, now: nat) {
    Keyed(m) && forall id :: id in m ==> Sound(m[id], now)
  }

  /** Every transition keeps the record invariant, from any status: a finished
      job may be started, completed or failed again. */
  lemma TransitionSound(j: JobInstance, op: Op, r: Reads, now: nat)
    requires !op.Submit? && Sound(j, now) && now <= r.t0 && r.Ordered()
    ensures Sound(Transition(j, op, r), r.mark)
    ensures Transition(j, op, r).id == j.id
    ensures j.updatedAt <= Transition(j, op, r).updatedAt
  {
  }

  /** Which operation may change what. The identity of a record never changes,
      its log only grows, by at most one entry, and a started job keeps the node it
      was assigned to. */
  lemma TransitionFrame(j: JobInstance, op: Op, r: Reads)
    requires !op.Submit?
    ensures var k := Transition(j, op, r);
            && k.id == j.id && k.originNodeId == j.originNodeId && k.spec == j.spec && k.submittedAt == j.submittedAt
            && j.logs <= k.logs && |k.logs| <= |j.logs| + 1
            && (k.status != j.status ==> |k.logs| == |j.logs| + 1 && !op.Assign? && !op.AddLog?)
            && (op.Assign? ==> k.assignedNode == Some(op.node))
            && (!op.Assign? && j.assignedNode.Some? ==> k.assignedNode == j.assignedNode)
            && (k.startedAt != j.startedAt ==> op.Start? && k.status == Running)
            && (k.completedAt != j.completedAt ==> k.status == Completed || k.status == Failed || k.status == Cancelled)
            && (k.exitCode != j.exitCode ==> op.Complete? && k.exitCode == Some(op.code))
            && (k.errorMessage != j.errorMessage ==> op.Fail? && k.errorMessage == Some(op.error))
            && (op.Cancel? ==> (k.status == Cancelled <==> j.status in {Pending, Running, Cancelled}))
            && (op.AddArtifact? ==> k.artifacts == j.artifacts + [op.artifact])
            && (!op.AddArtifact? ==> |k.artifacts| == |j.artifacts|)
            && (forall i :: 0 <= i < |j.artifacts| ==> k.artifacts[i].name == j.artifacts[i].name)
  {
  }

  /** `k` has one more log entry than `j`. */
  predicate Logged(j: JobInstance, k: JobInstance, time: nat, level: string, message: string) {
    k.logs == j.logs + [JobLogEntry(time, level, message)]
  }

  ghost predicate FirstCalled(artifacts: seq<JobArtifact>, name: string, i: int) {
    && 0 <= i < |artifacts| && artifacts[i].name == name
    && forall n :: 0 <= n < i ==> artifacts[n].name != name
  }

  /** The first artifact of that name has the digest, and nothing else is changed but
      the stamp; with no such artifact nothing is. */
  ghost predicate DigestStaged(j: JobInstance, k: JobInstance, name: string, digest: string, time: nat) {
    if exists i :: FirstCalled(j.artifacts, name, i) then
      && k.updatedAt == time && |k.artifacts| == |j.artifacts|
      && forall i :: 0 <= i < |j.artifacts| ==>
           if FirstCalled(j.artifacts, name, i) then
             && k.artifacts[i].sha256Hex == Some(digest)
             && k.artifacts[i].(sha256Hex := None) == j.artifacts[i].(sha256Hex := None)
           else k.artifacts[i] == j.artifacts[i]
    else k == j
  }

  lemma DigestEffects(j: JobInstance, op: Op, r: Reads)
    requires op.StageDigest?
    ensures DigestStaged(j, Transition(j, op, r), op.name, op.digest, r.t0)
  {
    var k := FirstNamed(j.artifacts, op.name);
    if k < |j.artifacts| {
      assert FirstCalled(j.artifacts, op.name, k);
      forall i | FirstCalled(j.artifacts, op.name, i)
        ensures i == k
      {
      }
    } else {
      assert forall i :: !FirstCalled(j.artifacts, op.name, i);
    }
  }

  /** What each operation does to a record, from any status. */
  lemma TransitionEffects(j: JobInstance, op: Op, r: Reads)
    requires !op.Submit?
    ensures var k := Transition(j, op, r);
            match op
            case Assign(_, node) =>
              k.assignedNode == Some(node) && k.updatedAt == r.t2 && Logged(j, k, r.t0, "info", "Job assigned to node " + node)
            case Start(_) =>
              && k.status == Running && k.startedAt == Some(r.t0) && k.updatedAt == r.t3
              && (j.assignedNode.None? ==> k.assignedNode == Some("unknown"))
              && Logged(j, k, r.t2, "info", "Job started")
            case Complete(_, code) =>
              && k.exitCode == Some(code) && k.completedAt == Some(r.t0) && k.updatedAt == r.t3
              && (k.status == Completed <==> code == 0) && (k.status == Failed <==> code != 0)
              && Logged(j, k, r.t2, "info", "Job completed with exit code " + SignedDecimal(code))
            case Fail(_, error) =>
              && k.status == Failed && k.errorMessage == Some(error) && k.completedAt == Some(r.t0) && k.updatedAt == r.t3
              && Logged(j, k, r.t2, "error", "Job failed: " + error)
            case Cancel(_) =>
              if j.status in {Pending, Running} then
                k.status == Cancelled && k.completedAt == Some(r.t0) && k.updatedAt == r.t3
                && Logged(j, k, r.t2, "warn", "Job cancelled")
              else k == j
            case AddLog(_, level, message) => k.updatedAt == r.t1 && Logged(j, k, r.t0, level, message)
            case AddArtifact(_, artifact) => k.updatedAt == r.t0 && k.artifacts == j.artifacts + [artifact]
            case StageDigest(_, name, digest) => DigestStaged(j, k, name, digest, r.t0)
    ensures !op.AddArtifact? && !op.StageDigest? ==> Transition(j, op, r).artifacts == j.artifacts
  {
    if op.StageDigest? {
      DigestEffects(j, op, r);
    }
  }

  /** What a submission adds to the store. */
  lemma SubmissionEffects(self: NodeId, s: Store, op: Op, r: Reads)
    requires op.Submit?
    ensures var s' := Apply(self, s, op, r);
            var id := if op.chosenId.Some? then op.chosenId.value else OriginOf(self, op) + "-" + Decimal(s.nextId);
            && id in s'.jobs
            && s'.jobs[id] == JobInstance(id, if op.origin.Some? then op.origin.value else self, op.spec, Pending, r.t0, r.t3,
                                          None, None, None, None, None, [JobLogEntry(r.t2, "info", "Job submitted")], [])
            && s'.nextId == s.nextId + if op.chosenId.None? then 1 else 0
  {
  }

  /** An operation touches one record, and only a submission can add one or move the counter. */
  lemma ApplyFrame(self: NodeId, s: Store, op: Op, r: Reads)
    ensures var s' := Apply(self, s, op, r);
            && (forall id :: id in s.jobs && id != TouchedId(self, s, op) ==> id in s'.jobs && s'.jobs[id] == s.jobs[id])
            && s'.jobs.Keys == s.jobs.Keys + (if op.Submit? then {TouchedId(self, s, op)} else {})
            && (!op.Submit? ==> s'.nextId == s.nextId)
            && (!op.Submit? && op.jobId !in s.jobs ==> s' == s)
            && (!op.Submit? && op.jobId in s.jobs ==> s'.jobs[op.jobId] == Transition(s.jobs[op.jobId], op, r))
  {
  }

  /** The whole life of a job, as its record tells it at the end. */
  lemma LifeOfAJob(self: NodeId, spec: JobSpec, node: NodeId, code: int, a: Reads, b: Reads, c: Reads, d: Reads)
    ensures var id := self + "-1";
            var s1 := Apply(self, DefaultStore(), Submit(spec, None, None), a);
            var s2 := Apply(self, s1, Assign(id, node), b);
            var s3 := Apply(self, s2, Start(id), c);
            var s4 := Apply(self, s3, Complete(id, code), d);
            && s4.jobs.Keys == {id} && s4.nextId == 2
            && s4.jobs[id] == JobInstance(
                 id, self, spec, if code == 0 then Completed else Failed,
                 a.t0, d.t3, Some(c.t0), Some(d.t0), Some(code), None, Some(node),
                 [JobLogEntry(a.t2, "info", "Job submitted"),
                  JobLogEntry(b.t0, "info", "Job assigned to node " + node),
                  JobLogEntry(c.t2, "info", "Job started"),
                  JobLogEntry(d.t2, "info", "Job completed with exit code " + SignedDecimal(code))],
                 [])
  {
    assert Decimal(1) == "1";
    assert JobIdOf(self, 1) == self + "-1";
  }

  lemma ApplySound(self: NodeId, s: Store, op: Op, r: Reads, now: nat)
    requires SoundJobs(s.jobs, now) && InTime(self, s, op, r)
    ensures SoundJobs(Apply(self, s, op, r).jobs, Latest(now, r.mark))
    ensures s.jobs.Keys <= Apply(self, s, op, r).jobs.Keys
    ensures forall id :: id in s.jobs ==> s.jobs[id].updatedAt <= Apply(self, s, op, r).jobs[id].updatedAt
  {
    if !op.Submit? && op.jobId in s.jobs {
      var j := s.jobs[op.jobId];
      assert Sound(j, now);
      TransitionSound(j, op, r, j.updatedAt);
    }
  }

  /** What the repairs do: a missing stamp becomes the time of submission, a missing
      origin this node; nothing else changes. */
  lemma RepairEffects(self: NodeId, s: Store)
    ensures var s' := Repair(self, s);
            && s'.nextId == s.nextId && s'.jobs.Keys == s.jobs.Keys
            && forall id :: id in s.jobs ==>
                 var j, k := s.jobs[id], s'.jobs[id];
                 && k.(updatedAt := j.updatedAt, originNodeId := j.originNodeId) == j
                 && (j.updatedAt == 0 ==> k.updatedAt == j.submittedAt)
                 && (j.updatedAt != 0 ==> k.updatedAt == j.updatedAt)
                 && (j.originNodeId == "" ==> k.originNodeId == self)
                 && (j.originNodeId != "" ==> k.originNodeId == j.originNodeId)
  {
  }

  /** The two repairs of `load_from_disk` do nothing the second time. */
  lemma RepairIdempotent(self: NodeId, s: Store)
    ensures Repair(self, Repair(self, s)) == Repair(self, s)
  {
    var once, twice := Repair(self, s), Repair(self, Repair(self, s));
    assert forall id :: id in s.jobs ==> twice.jobs[id] == once.jobs[id];
  }

  /** They do nothing at all to a store whose records satisfy the invariant and
      name their origin, so such a store is read back exactly as it was written. */
  lemma LoadRestores(self: NodeId, s: Store, now: nat)
    requires SoundJobs(s.jobs, now)
    ensures Loaded(self, Some(s)) == s <==> (self == "" || forall id :: id in s.jobs ==> s.jobs[id].originNodeId != "")
  {
    var back := Repair(self, s);
    assert forall id :: id in s.jobs ==>
      back.jobs[id] == if s.jobs[id].originNodeId == "" then s.jobs[id].(originNodeId := self) else s.jobs[id];
  }
}
