/** The JobManager of one node (crates/agent/src/job_manager.rs), updated in
    place, with its jobs.json. Every method is proved against JobStore. */
module JobManagement {
  import opened Wrappers
  import opened Text
  import opened Jobs
  import opened JobStore
  import opened Listing

  /** The effect of `stage_artifacts` on the store. */
  function Staged(self: NodeId, s: Store, jobId: JobId,
                  artifacts: seq<JobArtifact>, digests: seq<Option<string>>, times: seq<nat>): Store
    requires |digests| == |artifacts| == |times|
  {
    if artifacts == [] then s
    else
      var n := |artifacts| - 1;
      var s' := Staged(self, s, jobId, artifacts[..n], digests[..n], times[..n]);
      var t := times[n];
      match digests[n]
      case None => s'
      case Some(d) => Apply(self, s', StageDigest(jobId, artifacts[n].name, d), Reads(t, t, t, t, t))
  }

  lemma StagedNext(self: NodeId, s: Store, jobId: JobId,
                   artifacts: seq<JobArtifact>, digests: seq<Option<string>>, times: seq<nat>, i: nat)
    requires i < |digests| == |artifacts| == |times|
    ensures var before := Staged(self, s, jobId, artifacts[..i], digests[..i], times[..i]);
            var t := times[i];
            Staged(self, s, jobId, artifacts[..i + 1], digests[..i + 1], times[..i + 1]) ==
            if digests[i].None? then before
            else Apply(self, before, StageDigest(jobId, artifacts[i].name, digests[i].value), Reads(t, t, t, t, t))
  {
    assert artifacts[..i + 1][..i] == artifacts[..i] && digests[..i + 1][..i] == digests[..i] && times[..i + 1][..i] == times[..i];
  }

  /** The digest of the last copy of that name that yielded one, if any did. */
  function LastDigest(artifacts: seq<JobArtifact>, digests: seq<Option<string>>, name: string): Option<string>
    requires |digests| == |artifacts|
  {
    if artifacts == [] then None
    else
      var n := |artifacts| - 1;
      if artifacts[n].name == name && digests[n].Some? then digests[n] else LastDigest(artifacts[..n], digests[..n], name)
  }

  /** The copies from the i-th on yield no digest of that name. */
  ghost predicate NoneFrom(artifacts: seq<JobArtifact>, digests: seq<Option<string>>, i: nat, name: string)
    requires |digests| == |artifacts|
  {
    forall k :: i <= k < |artifacts| && artifacts[k].name == name ==> digests[k].None?
  }

  lemma {:induction false} LastDigestMeans(artifacts: seq<JobArtifact>, digests: seq<Option<string>>, i: nat, name: string)
    requires |digests| == |artifacts|
    ensures NoneFrom(artifacts, digests, 0, name) ==> LastDigest(artifacts, digests, name) == None
    ensures i < |artifacts| && artifacts[i].name == name && digests[i].Some? && NoneFrom(artifacts, digests, i + 1, name)
            ==> LastDigest(artifacts, digests, name) == digests[i]
  {
    if artifacts != [] {
      LastDigestMeans(artifacts[..|artifacts| - 1], digests[..|artifacts| - 1], i, name);
    }
  }

  ghost function RecordedOne(before: seq<JobArtifact>, p: nat,
                             artifacts: seq<JobArtifact>, digests: seq<Option<string>>): JobArtifact
    requires |digests| == |artifacts| && p < |before|
  {
    var d := LastDigest(artifacts, digests, before[p].name);
    if FirstCalled(before, before[p].name, p) && d.Some? then before[p].(sha256Hex := d) else before[p]
  }

  /** `after` is `before` with that digest recorded in the first artifact of each name
      for which there is one. */
  ghost predicate Recorded(before: seq<JobArtifact>, after: seq<JobArtifact>,
                           artifacts: seq<JobArtifact>, digests: seq<Option<string>>)
    requires |digests| == |artifacts|
  {
    && |after| == |before|
    && forall p :: 0 <= p < |before| ==> after[p] == RecordedOne(before, p, artifacts, digests)
  }

  lemma RecordOneMore(before: seq<JobArtifact>, mid: seq<JobArtifact>, after: seq<JobArtifact>,
                      artifacts: seq<JobArtifact>, digests: seq<Option<string>>, digest: string)
    requires |digests| == |artifacts| > 0 && digests[|artifacts| - 1] == Some(digest)
    requires Recorded(before, mid, artifacts[..|artifacts| - 1], digests[..|artifacts| - 1])
    requires |after| == |mid|
    requires forall p :: 0 <= p < |mid| ==>
               after[p] == if FirstCalled(mid, artifacts[|artifacts| - 1].name, p) then mid[p].(sha256Hex := Some(digest)) else mid[p]
    ensures Recorded(before, after, artifacts, digests)
  {
    var n := |artifacts| - 1;
    forall p | 0 <= p < |before|
      ensures after[p] == RecordedOne(before, p, artifacts, digests)
    {
      assert mid[p] == RecordedOne(before, p, artifacts[..n], digests[..n]);
      assert forall k :: 0 <= k < |before| ==> mid[k].name == before[k].name by {
        forall k | 0 <= k < |before|
          ensures mid[k].name == before[k].name
        {
          assert mid[k] == RecordedOne(before, k, artifacts[..n], digests[..n]);
        }
      }
      assert FirstCalled(mid, artifacts[n].name, p) <==> FirstCalled(before, artifacts[n].name, p);
    }
  }

  lemma RecordNoMore(before: seq<JobArtifact>, mid: seq<JobArtifact>, artifacts: seq<JobArtifact>, digests: seq<Option<string>>)
    requires |digests| == |artifacts| > 0 && digests[|artifacts| - 1].None?
    requires Recorded(before, mid, artifacts[..|artifacts| - 1], digests[..|artifacts| - 1])
    ensures Recorded(before, mid, artifacts, digests)
  {
    var n := |artifacts| - 1;
    forall p | 0 <= p < |before|
      ensures mid[p] == RecordedOne(before, p, artifacts, digests)
    {
      assert mid[p] == RecordedOne(before, p, artifacts[..n], digests[..n]);
    }
  }

  lemma StagesFirst(j: JobInstance, name: string, digest: string, t: nat)
    ensures var k := Transition(j, StageDigest("", name, digest), Reads(t, t, t, t, t));
            && |k.artifacts| == |j.artifacts| && k.(artifacts := j.artifacts, updatedAt := j.updatedAt) == j
            && forall p :: 0 <= p < |j.artifacts| ==>
                 k.artifacts[p] == if FirstCalled(j.artifacts, name, p) then j.artifacts[p].(sha256Hex := Some(digest))
                                   else j.artifacts[p]
  {
  }

  /** What staging leaves: each copied artifact's digest, and no other change but the
      job's stamp. */
  lemma {:induction false} StagedDigests(self: NodeId, s: Store, jobId: JobId, artifacts: seq<JobArtifact>,
                                         digests: seq<Option<string>>, times: seq<nat>)
    requires |digests| == |artifacts| == |times| && jobId in s.jobs
    ensures var j, s' := s.jobs[jobId], Staged(self, s, jobId, artifacts, digests, times);
            && s'.jobs.Keys == s.jobs.Keys && s'.nextId == s.nextId
            && (forall id :: id in s.jobs && id != jobId ==> s'.jobs[id] == s.jobs[id])
            && s'.jobs[jobId].(artifacts := j.artifacts, updatedAt := j.updatedAt) == j
            && Recorded(j.artifacts, s'.jobs[jobId].artifacts, artifacts, digests)
  {
    if artifacts != [] {
      var n := |artifacts| - 1;
      StagedDigests(self, s, jobId, artifacts[..n], digests[..n], times[..n]);
      var mid := Staged(self, s, jobId, artifacts[..n], digests[..n], times[..n]).jobs[jobId];
      if digests[n].Some? {
        var after := Staged(self, s, jobId, artifacts, digests, times).jobs[jobId];
        StagesFirst(mid, artifacts[n].name, digests[n].value, times[n]);
        RecordOneMore(s.jobs[jobId].artifacts, mid.artifacts, after.artifacts, artifacts, digests, digests[n].value);
      } else {
        RecordNoMore(s.jobs[jobId].artifacts, mid.artifacts, artifacts, digests);
      }
    }
  }

  /** Staging saves nothing: its digests reach jobs.json with the next save. */
  lemma StagingSavesNothing(s: Store, jobId: JobId, name: string, digest: string)
    ensures !Saves(s, StageDigest(jobId, name, digest))
  {
  }

  /** The state lock is held for a whole body here; the cluster protocol
      interleaves the locked sections and the saves. */
  class JobManager {
    const nodeId: NodeId
    var jobs: map<JobId, JobInstance>
    var nextId: nat
    var running: set<JobId>
    var lastUpdate: nat
    var disk: Option<Store>

    function State(): Store
      reads this
    {
      Store(jobs, nextId)
    }

    ghost predicate Valid()
      reads this
    {
      Keyed(jobs) && (disk.Some? ==> Keyed(disk.value.jobs))
    }

    constructor (nodeId: NodeId, disk: Option<Store>, now: nat)
      requires disk.Some? ==> Keyed(disk.value.jobs)
      ensures Valid() && this.nodeId == nodeId && this.disk == disk
      ensures State() == DefaultStore() && running == {} && lastUpdate == now
    {
      this.nodeId, this.disk := nodeId, disk;
      jobs, nextId, running, lastUpdate := map[], 1, {}, now;
    }

    method LoadFromDisk()
      requires Valid()
      modifies this`jobs, this`nextId
      ensures Valid()
      ensures State() == if disk.Some? then Loaded(nodeId, disk) else old(State())
    {
      if disk.Some? {
        var loaded := disk.value.jobs;
        var todo := loaded.Keys;
        while todo != {}
          invariant todo <= loaded.Keys == disk.value.jobs.Keys
          invariant forall id :: id in loaded ==>
            loaded[id] == if id in todo then disk.value.jobs[id] else RepairJob(nodeId, disk.value.jobs[id])
          decreases |todo|
        {
          var id :| id in todo;
          var job := loaded[id];
          if job.updatedAt == 0 {
            job := job.(updatedAt := job.submittedAt);
          }
          if job.originNodeId == "" {
            job := job.(originNodeId := nodeId);
          }
          loaded, todo := loaded[id := job], todo - {id};
        }
        assert loaded == Repair(nodeId, disk.value).jobs;
        jobs, nextId := loaded, disk.value.nextId;
      }
    }

    method SaveToDisk()
      requires Valid()
      modifies this`disk
      ensures Valid() && disk == Some(State())
    {
      disk := Some(State());
    }

    method SubmitJob(spec: JobSpec, origin: Option<NodeId>, chosenId: Option<JobId>, r: Reads) returns (id: JobId)
      requires Valid()
      modifies this`jobs, this`nextId, this`lastUpdate, this`disk
      ensures Valid() && lastUpdate == r.mark
      ensures id == SubmittedId(nodeId, old(State()), Submit(spec, origin, chosenId))
      ensures State() == Apply(nodeId, old(State()), Submit(spec, origin, chosenId), r) && disk == Some(State())
      ensures Saves(old(State()), Submit(spec, origin, chosenId))
    {
      var from := match origin case Some(o) => o case None => nodeId;
      match chosenId {
        case Some(given) => id := given;
        case None =>
          id := JobIdOf(from, nextId);
          nextId := nextId + 1;
      }
      var job := NewJob(id, from, spec, r.t0, r.t1);
      job := job.AddLog("info", "Job submitted", r.t2, r.t3);
      jobs := jobs[id := job];
      lastUpdate := r.mark;
      SaveToDisk();
    }

    method AssignJob(jobId: JobId, node: NodeId, r: Reads)
      requires Valid()
      modifies this`jobs, this`lastUpdate, this`disk
      ensures Valid() && lastUpdate == r.mark
      ensures State() == Apply(nodeId, old(State()), Assign(jobId, node), r) && disk == Some(State())
      ensures Saves(old(State()), Assign(jobId, node))
    {
      if jobId in jobs {
        var job := jobs[jobId].(assignedNode := Some(node));
        job := job.AddLog("info", "Job assigned to node " + node, r.t0, r.t1);
        job := job.(updatedAt := r.t2);
        jobs := jobs[jobId := job];
      }
      lastUpdate := r.mark;
      SaveToDisk();
    }

    method StartJob(jobId: JobId, r: Reads)
      requires Valid()
      modifies this`jobs, this`lastUpdate, this`disk
      ensures Valid() && lastUpdate == r.mark
      ensures State() == Apply(nodeId, old(State()), Start(jobId), r) && disk == Some(State())
      ensures Saves(old(State()), Start(jobId))
    {
      if jobId in jobs {
        var job := jobs[jobId];
        var node := match job.assignedNode case Some(n) => n case None => "unknown";
        job := job.Start(node, r.t0, r.t1);
        job := job.AddLog("info", "Job started", r.t2, r.t3);
        jobs := jobs[jobId := job];
      }
      lastUpdate := r.mark;
      SaveToDisk();
    }

    method CompleteJob(jobId: JobId, code: int, r: Reads)
      requires Valid()
      modifies this`jobs, this`lastUpdate, this`disk
      ensures Valid() && lastUpdate == r.mark
      ensures State() == Apply(nodeId, old(State()), Complete(jobId, code), r) && disk == Some(State())
      ensures Saves(old(State()), Complete(jobId, code))
    {
      if jobId in jobs {
        var job := jobs[jobId].Complete(code, r.t0, r.t1);
        job := job.AddLog("info", "Job completed with exit code " + SignedDecimal(code), r.t2, r.t3);
        jobs := jobs[jobId := job];
      }
      lastUpdate := r.mark;
      SaveToDisk();
    }

    method FailJob(jobId: JobId, error: string, r: Reads)
      requires Valid()
      modifies this`jobs, this`lastUpdate, this`disk
      ensures Valid() && lastUpdate == r.mark
      ensures State() == Apply(nodeId, old(State()), Fail(jobId, error), r) && disk == Some(State())
      ensures Saves(old(State()), Fail(jobId, error))
    {
      if jobId in jobs {
        var job := jobs[jobId].Fail(error, r.t0, r.t1);
        job := job.AddLog("error", "Job failed: " + error, r.t2, r.t3);
        jobs := jobs[jobId := job];
      }
      lastUpdate := r.mark;
      SaveToDisk();
    }

    /** Cancels a pending or running job, and nothing else. */
    method CancelJob(jobId: JobId, r: Reads) returns (cancelled: bool)
      requires Valid()
      modifies this`jobs, this`running, this`lastUpdate, this`disk
      ensures Valid()
      ensures cancelled == Saves(old(State()), Cancel(jobId))
      ensures State() == Apply(nodeId, old(State()), Cancel(jobId), r)
      ensures cancelled ==> jobs[jobId].status == Cancelled && running == old(running) - {jobId}
      ensures cancelled ==> disk == Some(State()) && lastUpdate == r.mark
      ensures !cancelled ==> State() == old(State()) && running == old(running)
                             && disk == old(disk) && lastUpdate == old(lastUpdate)
    {
      if jobId in jobs {
        var job := jobs[jobId];
        if job.status == Pending || job.status == Running {
          job := job.Cancel(r.t0, r.t1);
          job := job.AddLog("warn", "Job cancelled", r.t2, r.t3);
          jobs := jobs[jobId := job];
          running := running - {jobId};
          SaveToDisk();
          lastUpdate := r.mark;
          return true;
        }
        assert jobs[jobId := jobs[jobId]] == jobs;
      }
      return false;
    }

    /** Does not save: jobs.json is left as it was. */
    method AddJobLog(jobId: JobId, level: string, message: string, r: Reads)
      requires Valid()
      modifies this`jobs, this`lastUpdate
      ensures Valid() && lastUpdate == r.mark
      ensures State() == Apply(nodeId, old(State()), AddLog(jobId, level, message), r)
      ensures !Saves(old(State()), AddLog(jobId, level, message))
    {
      if jobId in jobs {
        jobs := jobs[jobId := jobs[jobId].AddLog(level, message, r.t0, r.t1)];
      }
      lastUpdate := r.mark;
    }

    method AddJobArtifact(jobId: JobId, artifact: JobArtifact, r: Reads)
      requires Valid()
      modifies this`jobs, this`lastUpdate, this`disk
      ensures Valid() && lastUpdate == r.mark
      ensures State() == Apply(nodeId, old(State()), AddArtifact(jobId, artifact), r) && disk == Some(State())
      ensures Saves(old(State()), AddArtifact(jobId, artifact))
    {
      if jobId in jobs {
        var job := jobs[jobId];
        job := job.(artifacts := job.artifacts + [artifact], updatedAt := r.t0);
        jobs := jobs[jobId := job];
      }
      lastUpdate := r.mark;
      SaveToDisk();
    }

    /** Records the digest of each artifact whose copy succeeded; digests[i] is
        None when copying or reading the i-th file failed. Does not save. */
    method StageArtifacts(jobId: JobId, artifacts: seq<JobArtifact>, digests: seq<Option<string>>, times: seq<nat>, mark: nat)
      requires Valid() && |digests| == |artifacts| == |times|
      modifies this`jobs, this`lastUpdate
      ensures Valid() && lastUpdate == mark
      ensures State() == Staged(nodeId, old(State()), jobId, artifacts, digests, times)
    {
      var i := 0;
      while i < |artifacts|
        invariant i <= |artifacts|
        invariant Valid()
        invariant State() == Staged(nodeId, old(State()), jobId, artifacts[..i], digests[..i], times[..i])
      {
        StagedNext(nodeId, old(State()), jobId, artifacts, digests, times, i);
        if digests[i].Some? && jobId in jobs {
          var job := jobs[jobId];
          var k := FirstNamed(job.artifacts, artifacts[i].name);
          if k < |job.artifacts| {
            job := job.(artifacts := job.artifacts[k := job.artifacts[k].(sha256Hex := digests[i])],
            updatedAt := times[i]);
          }
          jobs := jobs[jobId := job];
        }
        i := i + 1;
      }
      assert artifacts[..i] == artifacts && digests[..i] == digests && times[..i] == times;
      lastUpdate := mark;
    }

    method SyncJob(job: JobInstance)
      requires Valid()
      modifies this`jobs
      ensures Valid() && jobs == MergeOne(old(jobs), job)
    {
      if job.id in jobs {
        if job.updatedAt > jobs[job.id].updatedAt {
          jobs := jobs[job.id := job];
        }
      } else {
        jobs := jobs[job.id := job];
      }
    }

    method SyncJobs(delivered: seq<JobInstance>)
      requires Valid()
      modifies this`jobs, this`disk
      ensures Valid()
      ensures jobs == MergeAll(old(jobs), delivered) && nextId == old(nextId) && disk == Some(State())
    {
      var i := 0;
      while i < |delivered|
        invariant i <= |delivered|
        invariant Valid() && jobs == MergeAll(old(jobs), delivered[..i])
      {
        SyncJob(delivered[i]);
        assert delivered[..i + 1][..i] == delivered[..i];
        i := i + 1;
      }
      assert delivered[..i] == delivered;
      SaveToDisk();
    }

    /** The newest `limit` submissions with the requested status. */
    method ListJobs(statusFilter: Option<string>, limit: nat) returns (out: seq<JobInstance>)
      requires Valid()
      ensures TopK(out, jobs, LocalFilter(statusFilter), BySubmitted, limit)
    {
      var filter := LocalFilter(statusFilter);
      var matching := Collect(jobs, filter);
      TruncatedSortIsTopK(matching, jobs, filter, BySubmitted, limit);
      out := Truncate(NewestFirst(matching, BySubmitted), limit);
    }
  }

  method StripEach(jobs: seq<JobInstance>, clearArtifacts: bool) returns (out: seq<JobInstance>)
    ensures out == StripList(jobs, clearArtifacts)
  {
    out := [];
    for i := 0 to |jobs|
      invariant |out| == i && forall k :: 0 <= k < i ==> out[k] == Strip(jobs[k], clearArtifacts)
    {
      out := out + [Strip(jobs[i], clearArtifacts)];
    }
  }

  /** The list a node gossips (p2p/mod.rs): all jobs, the most recently updated
      first, cut at `limit`, logs cleared. */
  method GossipSnapshot(mgr: JobManager, limit: nat, clearArtifacts: bool) returns (out: seq<JobInstance>)
    requires mgr.Valid()
    ensures IsSnapshot(out, mgr.jobs, limit, clearArtifacts)
  {
    var all := mgr.ListJobs(None, |mgr.jobs|);
    var kept := Truncate(NewestFirst(all, ByUpdated), limit);
    assert IsSnapshot(StripList(kept, clearArtifacts), mgr.jobs, limit, clearArtifacts) by {
      UnlimitedTopKEnumerates(all, mgr.jobs, BySubmitted);
      SortedIsSnapshot(all, mgr.jobs, limit, clearArtifacts);
    }
    out := StripEach(kept, clearArtifacts);
  }
}
