/** Generated job ids are unique across the cluster, whatever crashes
    (job_manager.rs, submit_job; p2p/mod.rs and cmd/job.rs, which publish a
    generated id only once its submission has returned). */
module IdFreshness {
  import opened Wrappers
  import opened Text
  import opened Jobs
  import opened JobStore
  import opened Listing
  import opened Cluster

  /** The id is in jobs.json or in a list still to be merged. */
  ghost predicate OffMemory(n: Node, id: JobId) {
    || (n.disk.Some? && id in n.disk.value.jobs)
    || exists k, i :: 0 <= k < |n.tasks| && 0 <= i < |n.tasks[k]| && n.tasks[k][i].id == id
  }

  ghost predicate OccursAt(n: Node, id: JobId) {
    id in n.mem.jobs || OffMemory(n, id)
  }

  ghost predicate OccursIn(m: Message, id: JobId) {
    match m
    case SubmitJob(_, jobId, _) => jobId == id
    case SyncJobs(jobs) => exists i :: 0 <= i < |jobs| && jobs[i].id == id
  }

  ghost predicate Sent(s: State, id: JobId) {
    exists m :: m in s.net && OccursIn(m, id)
  }

  /** The id is in some store, some jobs.json, some task or some message. */
  ghost predicate Occurs(s: State, id: JobId) {
    (exists a :: a in s.nodes && OccursAt(s.nodes[a], id)) || Sent(s, id)
  }

  /** The id is somewhere else than in the memory of `o`. */
  ghost predicate Outside(s: State, o: NodeId, id: JobId) {
    || (exists a :: a in s.nodes && a != o && OccursAt(s.nodes[a], id))
    || (o in s.nodes && OffMemory(s.nodes[o], id))
    || Sent(s, id)
  }

  // ---------- where ids come from ----------

  lemma WorkOffMemory(n: Node, w: nat, id: JobId)
    requires w < |n.tasks| && OffMemory(WorkOn(n, w), id)
    ensures OffMemory(n, id) || (n.tasks[w] == [] && id in n.mem.jobs)
  {
    var n' := WorkOn(n, w);
    if !(n'.disk.Some? && id in n'.disk.value.jobs) {
      var k, i :| 0 <= k < |n'.tasks| && 0 <= i < |n'.tasks[k]| && n'.tasks[k][i].id == id;
      if n.tasks[w] == [] {
        var k' := if k < w then k else k + 1;
        assert n.tasks[k'][i].id == id;
      } else if k == w {
        assert n.tasks[w][i + 1].id == id;
      } else {
        assert n.tasks[k][i].id == id;
      }
    }
  }

  lemma WorkIds(n: Node, w: nat, id: JobId)
    requires w < |n.tasks| && OccursAt(WorkOn(n, w), id)
    ensures OccursAt(n, id)
  {
    if id in WorkOn(n, w).mem.jobs {
      assert id !in n.mem.jobs ==> n.tasks[w][0].id == id;
    } else {
      WorkOffMemory(n, w, id);
    }
  }

  lemma PerformOffMemory(self: NodeId, n: Node, op: Op, r: Reads, id: JobId)
    requires OffMemory(Perform(self, n, op, r), id)
    ensures OffMemory(n, id)
  {
    var n' := Perform(self, n, op, r);
    if !(n'.disk.Some? && id in n'.disk.value.jobs) {
      var k, i :| 0 <= k < |n'.tasks| && 0 <= i < |n'.tasks[k]| && n'.tasks[k][i].id == id;
      assert n.tasks[k][i].id == id;
    }
  }

  lemma ReceivedOffMemory(n: Node, jobs: seq<JobInstance>, id: JobId)
    requires OffMemory(n.(tasks := n.tasks + [jobs]), id)
    ensures OffMemory(n, id) || OccursIn(SyncJobs(jobs), id)
  {
    var n' := n.(tasks := n.tasks + [jobs]);
    if !(n.disk.Some? && id in n.disk.value.jobs) {
      var k, i :| 0 <= k < |n'.tasks| && 0 <= i < |n'.tasks[k]| && n'.tasks[k][i].id == id;
      if k < |n.tasks| {
        assert n.tasks[k][i].id == id;
      }
    }
  }

  /** The step is a submission that generates this id. */
  ghost predicate Generates(s: State, step: Step, id: JobId)
    requires Enabled(s, step)
  {
    step.Act? && step.op.Submit? && id == SubmittedId(step.node, s.nodes[step.node].mem, step.op)
  }

  lemma NodeIds(s: State, step: Step, id: JobId)
    requires Enabled(s, step) && OccursAt(Exec(s, step).nodes[step.node], id)
    ensures OccursAt(s.nodes[step.node], id) || Sent(s, id) || Generates(s, step, id)
  {
    var n := s.nodes[step.node];
    var t := Exec(s, step).nodes[step.node];
    match step {
      case Act(self, op, r) =>
        if OffMemory(t, id) {
          PerformOffMemory(self, n, op, r, id);
        }
      case ReceiveSubmit(self, msg, r) =>
        assert OccursIn(msg, msg.jobId);
        if OffMemory(t, id) {
          PerformOffMemory(self, n, Received(msg), r, id);
        }
      case ReceiveSync(_, msg) =>
        if OffMemory(t, id) {
          ReceivedOffMemory(n, msg.jobs, id);
        }
      case Work(_, w) => WorkIds(n, w, id);
      case _ =>
    }
  }

  lemma SentIds(s: State, step: Step, id: JobId)
    requires Enabled(s, step) && Sent(Exec(s, step), id) && !Sent(s, id)
    ensures OccursAt(s.nodes[step.node], id) && (step.Gossip? || step.Announce?)
  {
    var m :| m in Exec(s, step).net && OccursIn(m, id);
    assert m !in s.net;
    if step.Gossip? {
      var jobs := s.nodes[step.node].mem.jobs;
      var i :| 0 <= i < |step.jobs| && step.jobs[i].id == id;
      assert step.jobs[i].id in StripAll(jobs, step.periodic);
    }
  }

  lemma StepIds(s: State, step: Step, id: JobId)
    requires Enabled(s, step) && Occurs(Exec(s, step), id)
    ensures Occurs(s, id) || Generates(s, step, id)
  {
    var t := Exec(s, step);
    if a :| a in t.nodes && OccursAt(t.nodes[a], id) {
      if a == step.node {
        NodeIds(s, step, id);
      } else {
        assert OccursAt(s.nodes[a], id);
      }
    } else if !Sent(s, id) {
      SentIds(s, step, id);
    }
  }

  /** An id gets out of a node's memory only by a save or by being published. */
  lemma LeavesMemory(s: State, step: Step, id: JobId)
    requires Enabled(s, step) && OffMemory(Exec(s, step).nodes[step.node], id)
    requires !OffMemory(s.nodes[step.node], id) && !Sent(s, id)
    ensures step.Work? && OccursAt(s.nodes[step.node], id) && CounterSaved(Exec(s, step).nodes[step.node])
  {
    var n := s.nodes[step.node];
    match step {
      case Act(self, op, r) => PerformOffMemory(self, n, op, r, id);
      case ReceiveSubmit(self, msg, r) => PerformOffMemory(self, n, Received(msg), r, id);
      case ReceiveSync(_, msg) => ReceivedOffMemory(n, msg.jobs, id);
      case Work(_, w) => WorkOffMemory(n, w, id);
      case _ =>
    }
  }

  lemma StepOutside(s: State, step: Step, o: NodeId, id: JobId)
    requires Enabled(s, step) && o in s.nodes && Outside(Exec(s, step), o, id)
    ensures || Outside(s, o, id)
            || (step.node != o && Generates(s, step, id))
            || (step.node == o && !step.Restart? && Occurs(s, id) && CounterSaved(Exec(s, step).nodes[o]))
  {
    var t := Exec(s, step);
    assert forall a :: a in t.nodes && a != step.node ==> a in s.nodes && t.nodes[a] == s.nodes[a];
    if !Outside(s, o, id) {
      if Sent(t, id) {
        SentIds(s, step, id);
      } else if OffMemory(t.nodes[o], id) {
        LeavesMemory(s, step, id);
      } else {
        var a :| a in t.nodes && a != o && OccursAt(t.nodes[a], id);
        NodeIds(s, step, id);
      }
    }
  }

  // ---------- the invariant ----------

  /** Of origin o's ids, those anywhere are numbered below its counter, and those
      outside its memory below the counter in its jobs.json. */
  ghost predicate Counted(s: State, o: NodeId) {
    o in s.nodes ==>
      && SavedCounter(s.nodes[o]) <= s.nodes[o].mem.nextId
      && (forall k: nat :: Occurs(s, JobIdOf(o, k)) ==> k < s.nodes[o].mem.nextId)
      && (forall k: nat :: Outside(s, o, JobIdOf(o, k)) ==> k < SavedCounter(s.nodes[o]))
  }

  lemma CounterMoves(s: State, step: Step, o: NodeId)
    requires Enabled(s, step) && o in s.nodes && SavedCounter(s.nodes[o]) <= s.nodes[o].mem.nextId
    ensures var n, t := s.nodes[o], Exec(s, step).nodes[o];
            && SavedCounter(n) <= SavedCounter(t) <= t.mem.nextId
            && (if step.node == o && step.Restart? then t.mem.nextId == SavedCounter(n) else n.mem.nextId <= t.mem.nextId)
  {
  }

  lemma StepOutsideBound(s: State, step: Step, o: NodeId, k: nat)
    requires Enabled(s, step) && o in s.nodes && Counted(s, o) && Outside(Exec(s, step), o, JobIdOf(o, k))
    ensures k < SavedCounter(Exec(s, step).nodes[o])
  {
    var id := JobIdOf(o, k);
    CounterMoves(s, step, o);
    StepOutside(s, step, o, id);
    if step.node != o && Generates(s, step, id) {
      JobIdInjective(o, k, step.node, s.nodes[step.node].mem.nextId);
    }
  }

  lemma StepOccursBound(s: State, step: Step, o: NodeId, k: nat)
    requires Enabled(s, step) && o in s.nodes && Counted(s, o) && Occurs(Exec(s, step), JobIdOf(o, k))
    ensures k < Exec(s, step).nodes[o].mem.nextId
  {
    var id, t := JobIdOf(o, k), Exec(s, step);
    CounterMoves(s, step, o);
    if Outside(t, o, id) {
      StepOutsideBound(s, step, o, k);
    } else if step.node == o && step.Restart? {
      assert OccursAt(t.nodes[o], id) && OffMemory(s.nodes[o], id);
      assert Outside(s, o, id);
    } else {
      StepIds(s, step, id);
      if Generates(s, step, id) {
        JobIdInjective(o, k, step.node, s.nodes[step.node].mem.nextId);
      }
    }
  }

  lemma StepCounted(s: State, step: Step, o: NodeId)
    requires Enabled(s, step) && Counted(s, o)
    ensures Counted(Exec(s, step), o)
  {
    if o in s.nodes {
      CounterMoves(s, step, o);
      forall k: nat | Occurs(Exec(s, step), JobIdOf(o, k))
        ensures k < Exec(s, step).nodes[o].mem.nextId
      {
        StepOccursBound(s, step, o, k);
      }
      forall k: nat | Outside(Exec(s, step), o, JobIdOf(o, k))
        ensures k < SavedCounter(Exec(s, step).nodes[o])
      {
        StepOutsideBound(s, step, o, k);
      }
    }
  }

  lemma {:induction false} RunCounters(s: State, steps: seq<Step>, o: NodeId)
    requires Runs(s, steps) && Counted(s, o)
    ensures Counted(Final(s, steps), o)
    decreases |steps|
  {
    if steps != [] {
      StepCounted(s, steps[0], o);
      RunCounters(Exec(s, steps[0]), steps[1..], o);
    }
  }

  /** The id theorem: at any point of any run, crashes included, the id a node
      generates next occurs nowhere in the system. */
  lemma GeneratedIdIsFresh(init: State, steps: seq<Step>, o: NodeId, spec: JobSpec)
    requires Initial(init) && Runs(init, steps)
    ensures var s := Final(init, steps);
            o in s.nodes ==> !Occurs(s, SubmittedId(o, s.nodes[o].mem, Submit(spec, None, None)))
  {
    RunCounters(init, steps, o);
    var s := Final(init, steps);
    assert Counted(s, o);
  }

  /** Why publishing has to wait for the save. By the invariant above no run gets to
      such a state; in one, with an id under way whose counter is not saved, a crash
      would make the node generate that id again. */
  lemma PublishedUnsavedIsReused(s: State, o: NodeId, spec: JobSpec)
    requires o in s.nodes && !CounterSaved(s.nodes[o]) && Sent(s, JobIdOf(o, SavedCounter(s.nodes[o])))
    ensures var t := Exec(s, Restart(o));
            Occurs(t, SubmittedId(o, t.nodes[o].mem, Submit(spec, None, None)))
  {
    var id := JobIdOf(o, SavedCounter(s.nodes[o]));
    assert Sent(Exec(s, Restart(o)), id);
  }
}
