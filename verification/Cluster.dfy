/** The replicated job store as a protocol: nodes with their jobs.json, gossip
    messages that may be delivered late, repeatedly, in any order or never, and
    one clock that never goes back. */
module Cluster {
  import opened Wrappers
  import opened Jobs
  import opened JobStore
  import opened Listing

  /** A task is an operation that has released the state lock but not finished:
      the records of a delivered list still to be merged, one lock at a time,
      and then a save. The empty task owes only its save. */
  datatype Node = Node(mem: Store, disk: Option<Store>, tasks: seq<seq<JobInstance>>)

  datatype Message =
    | SyncJobs(jobs: seq<JobInstance>)
    | SubmitJob(origin: NodeId, jobId: JobId, spec: JobSpec)

  datatype State = State(nodes: map<NodeId, Node>, net: set<Message>, clock: nat)

  const PERIODIC_LIMIT := 10
  const REQUESTED_LIMIT := 32

  datatype Step =
    | Act(node: NodeId, op: Op, r: Reads)                              // a local or status operation
    | Announce(node: NodeId, jobId: JobId)                             // publish a job as SubmitJob
    | Gossip(node: NodeId, jobs: seq<JobInstance>, periodic: bool)     // publish a snapshot
    | ReceiveSubmit(node: NodeId, msg: Message, r: Reads)
    | ReceiveSync(node: NodeId, msg: Message)
    | Work(node: NodeId, task: nat)                                    // one locked section of a task
    | Restart(node: NodeId)                                            // crash, then load_from_disk

  function SavedCounter(n: Node): nat {
    if n.disk.Some? then n.disk.value.nextId else 1
  }

  /** No submission that generated an id still owes its save. The loop that
      generates ids is the one that publishes, and it waits for the save, so a
      node publishes only then. */
  predicate CounterSaved(n: Node) {
    SavedCounter(n) == n.mem.nextId
  }

  /** The operation a received announcement leads to. */
  function Received(msg: Message): Op
    requires msg.SubmitJob?
  {
    Submit(msg.spec, Some(msg.origin), Some(msg.jobId))
  }

  ghost predicate Enabled(s: State, step: Step) {
    && step.node in s.nodes
    && var n := s.nodes[step.node];
       match step
       case Act(self, op, r) =>
         && InTime(self, n.mem, op, r)
         && (op.Submit? ==> op.chosenId.None? && OriginOf(self, op) == self)
       case Announce(_, id) => id in n.mem.jobs && CounterSaved(n)
       case Gossip(_, jobs, periodic) =>
         && CounterSaved(n)
         && IsSnapshot(jobs, n.mem.jobs, if periodic then PERIODIC_LIMIT else REQUESTED_LIMIT, periodic)
       case ReceiveSubmit(self, msg, r) => msg in s.net && msg.SubmitJob? && InTime(self, n.mem, Received(msg), r)
       case ReceiveSync(_, msg) => msg in s.net && msg.SyncJobs?
       case Work(_, k) => k < |n.tasks|
       case Restart(_) => true
  }

  function Perform(self: NodeId, n: Node, op: Op, r: Reads): Node {
    Node(Apply(self, n.mem, op, r), n.disk, if Saves(n.mem, op) then n.tasks + [[]] else n.tasks)
  }

  function WorkOn(n: Node, k: nat): Node
    requires k < |n.tasks|
  {
    if n.tasks[k] == [] then
      Node(n.mem, Some(n.mem), n.tasks[..k] + n.tasks[k + 1..])
    else
      Node(n.mem.(jobs := MergeOne(n.mem.jobs, n.tasks[k][0])), n.disk, n.tasks[k := n.tasks[k][1..]])
  }

  ghost function Exec(s: State, step: Step): State
    requires Enabled(s, step)
  {
    var n := s.nodes[step.node];
    match step
    case Act(self, op, r) => s.(nodes := s.nodes[self := Perform(self, n, op, r)], clock := Latest(s.clock, r.mark))
    case Announce(_, id) =>
      var j := n.mem.jobs[id];
      s.(net := s.net + {SubmitJob(j.originNodeId, id, j.spec)})
    case Gossip(_, jobs, _) => s.(net := s.net + {SyncJobs(jobs)})
    case ReceiveSubmit(self, msg, r) =>
      s.(nodes := s.nodes[self := Perform(self, n, Received(msg), r)], clock := Latest(s.clock, r.mark))
    case ReceiveSync(self, msg) => s.(nodes := s.nodes[self := n.(tasks := n.tasks + [msg.jobs])])
    case Work(self, k) => s.(nodes := s.nodes[self := WorkOn(n, k)])
    case Restart(self) => s.(nodes := s.nodes[self := Node(Loaded(self, n.disk), n.disk, [])])
  }

  ghost predicate Initial(s: State) {
    s.net == {} && forall a :: a in s.nodes ==> s.nodes[a] == Node(DefaultStore(), None, [])
  }

  ghost predicate Runs(s: State, steps: seq<Step>)
    decreases |steps|
  {
    steps == [] || (Enabled(s, steps[0]) && Runs(Exec(s, steps[0]), steps[1..]))
  }

  ghost function Final(s: State, steps: seq<Step>): State
    requires Runs(s, steps)
    decreases |steps|
  {
    if steps == [] then s else Final(Exec(s, steps[0]), steps[1..])
  }

  lemma RunStep(s: State, step: Step, rest: seq<Step>)
    requires Enabled(s, step) && Runs(Exec(s, step), rest)
    ensures Runs(s, [step] + rest) && Final(s, [step] + rest) == Final(Exec(s, step), rest)
  {
    assert ([step] + rest)[1..] == rest;
  }

  lemma {:induction false} RunsJoin(s: State, p: seq<Step>, q: seq<Step>)
    requires Runs(s, p) && Runs(Final(s, p), q)
    ensures Runs(s, p + q) && Final(s, p + q) == Final(Final(s, p), q)
    decreases |p|
  {
    if p == [] {
      assert p + q == q;
    } else {
      RunsJoin(Exec(s, p[0]), p[1..], q);
      RunStep(s, p[0], p[1..] + q);
      assert p + q == [p[0]] + (p[1..] + q);
    }
  }

  lemma OneStep(s: State, before: seq<Step>, step: Step)
    requires Runs(s, before) && Enabled(Final(s, before), step)
    ensures Runs(s, before + [step]) && Final(s, before + [step]) == Exec(Final(s, before), step)
  {
    RunStep(Final(s, before), step, []);
    assert [step] + [] == [step];
    RunsJoin(s, before, [step]);
  }

  /** No operation is in progress. */
  ghost predicate Settled(s: State) {
    forall a :: a in s.nodes ==> s.nodes[a].tasks == []
  }

  // ---------- what the steps do ----------

  /** A step changes no other node, and takes no message back; only a save reaches a
      disk, and writes the memory. */
  lemma StepFrame(s: State, step: Step)
    requires Enabled(s, step)
    ensures Exec(s, step).nodes.Keys == s.nodes.Keys && s.net <= Exec(s, step).net
    ensures forall b :: b in s.nodes && b != step.node ==> Exec(s, step).nodes[b] == s.nodes[b]
    ensures step.Gossip? || step.Announce? ==> Exec(s, step).nodes == s.nodes
    ensures var n, t := s.nodes[step.node], Exec(s, step).nodes[step.node];
            && (t.disk != n.disk ==> step.Work? && n.tasks[step.task] == [] && t.disk == Some(n.mem) && t.mem == n.mem)
            && (step.Act? ==> t.mem == Apply(step.node, n.mem, step.op, step.r) && n.tasks <= t.tasks)
  {
  }

  /** A crash forgets what was in progress and what was not saved, and nothing else. */
  lemma RestartForgets(s: State, a: NodeId)
    requires a in s.nodes
    ensures Enabled(s, Restart(a))
    ensures var n, t := s.nodes[a], Exec(s, Restart(a));
            && t.net == s.net && t.nodes[a].disk == n.disk && t.nodes[a].tasks == []
            && t.nodes[a].mem.jobs.Keys == (if n.disk.Some? then n.disk.value.jobs.Keys else {})
            && t.nodes[a].mem.nextId == SavedCounter(n)
  {
  }

  /** An announced job arrives at another node as a pending job of the same id,
      origin and specification. */
  lemma AnnouncedArrives(s: State, a: NodeId, id: JobId, b: NodeId)
    requires a in s.nodes && b in s.nodes && id in s.nodes[a].mem.jobs && CounterSaved(s.nodes[a])
    ensures var j := s.nodes[a].mem.jobs[id];
            && Enabled(s, Announce(a, id))
            && forall r :: InTime(b, s.nodes[b].mem, Submit(j.spec, Some(j.originNodeId), Some(id)), r) ==>
                 var receive := ReceiveSubmit(b, SubmitJob(j.originNodeId, id, j.spec), r);
                 && Enabled(Exec(s, Announce(a, id)), receive)
                 && var m := Exec(Exec(s, Announce(a, id)), receive).nodes[b].mem;
                    id in m.jobs && m.jobs[id].id == id && m.jobs[id].originNodeId == j.originNodeId
                    && m.jobs[id].spec == j.spec && m.jobs[id].status == Pending
  {
  }

  /** Every operation is possible at every time, at the clock's next reading. */
  lemma OperationPossible(s: State, a: NodeId, op: Op) returns (r: Reads)
    requires a in s.nodes && (op.Submit? ==> op.chosenId.None? && op.origin.None?)
    requires forall id :: id in s.nodes[a].mem.jobs ==> s.nodes[a].mem.jobs[id].updatedAt <= s.clock
    ensures Enabled(s, Act(a, op, r)) && r.t0 >= s.clock
  {
    r := Reads(s.clock, s.clock, s.clock, s.clock, s.clock);
  }

  lemma GossipCarries(s: State, a: NodeId, id: JobId, periodic: bool)
    requires a in s.nodes && CounterSaved(s.nodes[a]) && Keyed(s.nodes[a].mem.jobs) && id in s.nodes[a].mem.jobs
    ensures (exists jobs :: Enabled(s, Gossip(a, jobs, periodic)) && id in IdsOf(jobs))
            <==> |FresherIds(s.nodes[a].mem.jobs, id)| < if periodic then 10 else 32
  {
    var m, limit := s.nodes[a].mem.jobs, if periodic then PERIODIC_LIMIT else REQUESTED_LIMIT;
    if |FresherIds(m, id)| < limit {
      var jobs := SnapshotWith(m, limit, periodic, id);
      assert Enabled(s, Gossip(a, jobs, periodic));
    }
    forall jobs | Enabled(s, Gossip(a, jobs, periodic)) && id in IdsOf(jobs)
      ensures |FresherIds(m, id)| < limit
    {
      CarriedIsNotBuried(jobs, m, limit, periodic, id);
    }
  }

  /** A periodic broadcast can carry a job if fewer than ten jobs are fresher, a
      requested snapshot if fewer than thirty-two are, and not otherwise. */
  lemma GossipCarriesIff(s: State, a: NodeId, id: JobId)
    requires a in s.nodes && CounterSaved(s.nodes[a]) && Keyed(s.nodes[a].mem.jobs) && id in s.nodes[a].mem.jobs
    ensures (exists jobs :: Enabled(s, Gossip(a, jobs, true)) && id in IdsOf(jobs))
            <==> |FresherIds(s.nodes[a].mem.jobs, id)| < 10
    ensures (exists jobs :: Enabled(s, Gossip(a, jobs, false)) && id in IdsOf(jobs))
            <==> |FresherIds(s.nodes[a].mem.jobs, id)| < 32
  {
    GossipCarries(s, a, id, true);
    GossipCarries(s, a, id, false);
  }

  // ---------- records in the system ----------

  /** A record waiting in a task or carried by a message. */
  ghost predicate InFlight(s: State, j: JobInstance) {
    || (exists m :: m in s.net && m.SyncJobs? && j in m.jobs)
    || (exists a, k :: a in s.nodes && 0 <= k < |s.nodes[a].tasks| && j in s.nodes[a].tasks[k])
  }

  ghost predicate Held(s: State, a: NodeId, j: JobInstance) {
    a in s.nodes && j.id in s.nodes[a].mem.jobs && s.nodes[a].mem.jobs[j.id] == j
  }

  // ---------- the record invariant ----------

  ghost predicate AllSound(jobs: seq<JobInstance>, now: nat) {
    forall i :: 0 <= i < |jobs| ==> Sound(jobs[i], now)
  }

  ghost predicate SoundNode(n: Node, now: nat) {
    && SoundJobs(n.mem.jobs, now)
    && (n.disk.Some? ==> SoundJobs(n.disk.value.jobs, now))
    && (forall k :: 0 <= k < |n.tasks| ==> AllSound(n.tasks[k], now))
  }

  /** Every record at every node, on every disk and in every message is sound. */
  ghost predicate SoundState(s: State) {
    && (forall a :: a in s.nodes ==> SoundNode(s.nodes[a], s.clock))
    && (forall m :: m in s.net && m.SyncJobs? ==> AllSound(m.jobs, s.clock))
  }

  lemma SoundLater(n: Node, now: nat, later: nat)
    requires SoundNode(n, now) && now <= later
    ensures SoundNode(n, later)
  {
    forall k | 0 <= k < |n.tasks|
      ensures AllSound(n.tasks[k], later)
    {
      assert AllSound(n.tasks[k], now);
    }
  }

  lemma PerformSound(self: NodeId, n: Node, op: Op, r: Reads, now: nat)
    requires SoundNode(n, now) && InTime(self, n.mem, op, r)
    ensures SoundNode(Perform(self, n, op, r), Latest(now, r.mark))
  {
    SoundLater(n, now, Latest(now, r.mark));
    ApplySound(self, n.mem, op, r, now);
  }

  lemma WorkSound(n: Node, k: nat, now: nat)
    requires SoundNode(n, now) && k < |n.tasks|
    ensures SoundNode(WorkOn(n, k), now)
  {
    assert AllSound(n.tasks[k], now);
  }

  lemma SnapshotSound(jobs: seq<JobInstance>, m: map<JobId, JobInstance>, limit: nat, clear: bool, now: nat)
    requires IsSnapshot(jobs, m, limit, clear) && SoundJobs(m, now)
    ensures AllSound(jobs, now)
  {
    var n := StripAll(m, clear);
    forall i | 0 <= i < |jobs|
      ensures Sound(jobs[i], now)
    {
      assert n[jobs[i].id] == jobs[i];
    }
  }

  /** Nodes that take no part, and messages already sent, stay sound. */
  lemma OthersSound(s: State, t: State, self: NodeId)
    requires SoundState(s) && s.clock <= t.clock && t.nodes.Keys == s.nodes.Keys
    requires forall a :: a in t.nodes && a != self ==> t.nodes[a] == s.nodes[a]
    requires self in t.nodes && SoundNode(t.nodes[self], t.clock)
    requires forall m :: m in t.net && m !in s.net && m.SyncJobs? ==> AllSound(m.jobs, t.clock)
    ensures SoundState(t)
  {
    forall a | a in t.nodes && a != self
      ensures SoundNode(t.nodes[a], t.clock)
    {
      SoundLater(s.nodes[a], s.clock, t.clock);
    }
    forall m | m in t.net && m.SyncJobs?
      ensures AllSound(m.jobs, t.clock)
    {
      if m in s.net {
        assert AllSound(m.jobs, s.clock);
      }
    }
  }

  /** The node that acts stays sound. */
  lemma ActorSound(s: State, step: Step)
    requires SoundState(s) && Enabled(s, step)
    ensures s.clock <= Exec(s, step).clock
    ensures step.node in Exec(s, step).nodes && SoundNode(Exec(s, step).nodes[step.node], Exec(s, step).clock)
  {
    var n := s.nodes[step.node];
    match step {
      case Act(self, op, r) => PerformSound(self, n, op, r, s.clock);
      case ReceiveSubmit(self, msg, r) =>
        PerformSound(self, n, Received(msg), r, s.clock);
      case Work(_, k) => WorkSound(n, k, s.clock);
      case _ =>
    }
  }

  /** What a step sends is sound. */
  lemma SentSound(s: State, step: Step, m: Message)
    requires SoundState(s) && Enabled(s, step)
    requires m in Exec(s, step).net && m !in s.net && m.SyncJobs?
    ensures AllSound(m.jobs, s.clock)
  {
    var n := s.nodes[step.node];
    SnapshotSound(m.jobs, n.mem.jobs, if step.periodic then PERIODIC_LIMIT else REQUESTED_LIMIT, step.periodic, s.clock);
  }

  lemma StepSound(s: State, step: Step)
    requires SoundState(s) && Enabled(s, step)
    ensures SoundState(Exec(s, step)) && s.clock <= Exec(s, step).clock
  {
    var t := Exec(s, step);
    ActorSound(s, step);
    forall m | m in t.net && m !in s.net && m.SyncJobs?
      ensures AllSound(m.jobs, t.clock)
    {
      SentSound(s, step, m);
    }
    OthersSound(s, t, step.node);
  }

  /** In every state of every run, crashes included, every record is sound. */
  lemma {:induction false} RunSound(s: State, steps: seq<Step>)
    requires SoundState(s) && Runs(s, steps)
    ensures SoundState(Final(s, steps)) && s.clock <= Final(s, steps).clock
    decreases |steps|
  {
    if steps != [] {
      StepSound(s, steps[0]);
      RunSound(Exec(s, steps[0]), steps[1..]);
    }
  }

  lemma ReachableSound(s: State, steps: seq<Step>)
    requires Initial(s) && Runs(s, steps)
    ensures SoundState(Final(s, steps))
  {
    RunSound(s, steps);
  }

  // ---------- crash consistency ----------

  /** `d` may be the saved form of `m`: all the same except a shorter log, an
      older stamp, and digests of artifacts not yet recorded. */
  ghost predicate SavedForm(d: JobInstance, m: JobInstance) {
    && d.id == m.id && d.spec == m.spec && d.status == m.status && d.submittedAt == m.submittedAt
    && d.startedAt == m.startedAt && d.completedAt == m.completedAt
    && d.exitCode == m.exitCode && d.errorMessage == m.errorMessage && d.assignedNode == m.assignedNode
    && d.logs <= m.logs
    && d.updatedAt <= m.updatedAt
    && |d.artifacts| == |m.artifacts|
    && forall i :: 0 <= i < |d.artifacts| ==>
         d.artifacts[i].(sha256Hex := None) == m.artifacts[i].(sha256Hex := None)
  }

  ghost predicate SavedStore(d: Store, m: Store) {
    && d.nextId == m.nextId
    && d.jobs.Keys == m.jobs.Keys
    && forall id :: id in d.jobs ==> SavedForm(d.jobs[id], m.jobs[id])
  }

  /** With nothing owed, jobs.json is the saved form of the memory. */
  ghost predicate Durable(n: Node) {
    n.tasks == [] ==> SavedStore(if n.disk.Some? then n.disk.value else DefaultStore(), n.mem)
  }

  lemma UnsavedOpKeepsSavedForm(d: JobInstance, m: JobInstance, op: Op, r: Reads)
    requires SavedForm(d, m) && (op.AddLog? || op.StageDigest?) && m.updatedAt <= r.t0 <= r.t1
    ensures SavedForm(d, Transition(m, op, r))
  {
  }

  lemma PerformDurable(self: NodeId, n: Node, op: Op, r: Reads, now: nat)
    requires Durable(n) && SoundJobs(n.mem.jobs, now) && InTime(self, n.mem, op, r)
    ensures Durable(Perform(self, n, op, r))
  {
    var n' := Perform(self, n, op, r);
    if n'.tasks == [] && op.jobId in n.mem.jobs && !op.Cancel? {
      var d := if n.disk.Some? then n.disk.value else DefaultStore();
      UnsavedOpKeepsSavedForm(d.jobs[op.jobId], n.mem.jobs[op.jobId], op, r);
    }
  }

  lemma WorkDurable(n: Node, k: nat)
    requires k < |n.tasks|
    ensures Durable(WorkOn(n, k))
  {
    if n.tasks[k] != [] {
      assert WorkOn(n, k).tasks != [];
    }
  }

  lemma RestartDurable(self: NodeId, n: Node, now: nat)
    requires SoundNode(n, now)
    ensures Durable(Node(Loaded(self, n.disk), n.disk, []))
  {
  }

  lemma ActorDurable(s: State, step: Step)
    requires SoundState(s) && Enabled(s, step) && Durable(s.nodes[step.node])
    ensures step.node in Exec(s, step).nodes && Durable(Exec(s, step).nodes[step.node])
  {
    var n := s.nodes[step.node];
    assert SoundNode(n, s.clock);
    match step {
      case Act(self, op, r) => PerformDurable(self, n, op, r, s.clock);
      case ReceiveSubmit(self, msg, r) =>
        PerformDurable(self, n, Received(msg), r, s.clock);
      case Work(_, k) => WorkDurable(n, k);
      case Restart(self) => RestartDurable(self, n, s.clock);
      case _ =>
    }
  }

  lemma StepDurable(s: State, step: Step)
    requires SoundState(s) && Enabled(s, step)
    requires forall a :: a in s.nodes ==> Durable(s.nodes[a])
    ensures forall a :: a in Exec(s, step).nodes ==> Durable(Exec(s, step).nodes[a])
  {
    ActorDurable(s, step);
  }

  lemma {:induction false} RunDurable(s: State, steps: seq<Step>)
    requires SoundState(s) && Runs(s, steps)
    requires forall a :: a in s.nodes ==> Durable(s.nodes[a])
    ensures forall a :: a in Final(s, steps).nodes ==> Durable(Final(s, steps).nodes[a])
    decreases |steps|
  {
    if steps != [] {
      StepSound(s, steps[0]);
      StepDurable(s, steps[0]);
      RunDurable(Exec(s, steps[0]), steps[1..]);
    }
  }

  lemma LoadedIsSaved(self: NodeId, n: Node, now: nat)
    requires SoundNode(n, now) && Durable(n) && n.tasks == []
    ensures SavedStore(Loaded(self, n.disk), n.mem)
  {
  }

  /** A node that owes no save loses, when it crashes and restarts, only the tail
      of its logs, its latest stamps and artifact digests: the job set, the id counter and
      every field that describes a job's progress come back. */
  lemma CrashLosesNothingSaved(s: State, steps: seq<Step>, a: NodeId)
    requires Initial(s) && Runs(s, steps) && a in Final(s, steps).nodes
    requires Final(s, steps).nodes[a].tasks == []
    ensures var t := Final(s, steps);
            Enabled(t, Restart(a)) && SavedStore(Exec(t, Restart(a)).nodes[a].mem, t.nodes[a].mem)
  {
    RunSound(s, steps);
    RunDurable(s, steps);
    var t := Final(s, steps);
    LoadedIsSaved(a, t.nodes[a], t.clock);
  }
}
