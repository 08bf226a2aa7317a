/** How nodes come to hear each other, and what happens when two records share a stamp. */
module GossipRounds {
  import opened Wrappers
  import opened Text
  import opened Jobs
  import opened JobStore
  import opened Listing
  import opened Cluster
  import opened Convergence

  /** Working a task off, record by record. */
  function WorkOff(b: NodeId, k: nat, n: nat): seq<Step> {
    if n == 0 then [] else [Work(b, k)] + WorkOff(b, k, n - 1)
  }

  lemma {:induction false} WorkOffHears(s: State, b: NodeId, k: nat, n: nat)
    requires b in s.nodes && k < |s.nodes[b].tasks| && n == |s.nodes[b].tasks[k]|
    ensures Runs(s, WorkOff(b, k, n)) && AllQuiet(WorkOff(b, k, n))
    ensures forall j :: j in s.nodes[b].tasks[k] ==> EverHears(s, WorkOff(b, k, n), b, j.id, j.updatedAt)
    decreases n
  {
    if n > 0 {
      var task := s.nodes[b].tasks[k];
      var t := Exec(s, Work(b, k));
      var rest := WorkOff(b, k, n - 1);
      assert t.nodes[b].tasks[k] == task[1..];
      WorkOffHears(t, b, k, n - 1);
      RunStep(s, Work(b, k), rest);
      assert WorkOff(b, k, n)[1..] == rest;
      assert forall j :: j in task ==> j == task[0] || j in task[1..];
    }
  }

  lemma HeardLater(s: State, step: Step, rest: seq<Step>, b: NodeId, jobs: seq<JobInstance>)
    requires Enabled(s, step) && Runs(Exec(s, step), rest)
    requires forall j :: j in jobs ==> EverHears(Exec(s, step), rest, b, j.id, j.updatedAt)
    ensures Runs(s, [step] + rest) && Final(s, [step] + rest) == Final(Exec(s, step), rest)
    ensures forall j :: j in jobs ==> EverHears(s, [step] + rest, b, j.id, j.updatedAt)
  {
    RunStep(s, step, rest);
    assert ([step] + rest)[1..] == rest;
  }

  lemma RoundDelivers(s: State, a: NodeId, b: NodeId, jobs: seq<JobInstance>) returns (steps: seq<Step>)
    requires a in s.nodes && b in s.nodes && Enabled(s, Gossip(a, jobs, false))
    ensures Runs(s, steps) && AllQuiet(steps)
    ensures forall j :: j in jobs ==> EverHears(s, steps, b, j.id, j.updatedAt)
  {
    var send, receive := Gossip(a, jobs, false), ReceiveSync(b, SyncJobs(jobs));
    var s1 := Exec(s, send);
    var s2 := Exec(s1, receive);
    var k := |s.nodes[b].tasks|;
    assert s2.nodes[b].tasks[k] == jobs;
    var works := WorkOff(b, k, |jobs|);
    WorkOffHears(s2, b, k, |jobs|);
    HeardLater(s1, receive, works, b, jobs);
    HeardLater(s, send, [receive] + works, b, jobs);
    steps := [send] + ([receive] + works);
  }

  /** One requested snapshot from a, received and worked off at b, lets b hear
      every job a holds, as long as a holds no more than the snapshot's limit. */
  lemma OneRoundSuffices(s: State, a: NodeId, b: NodeId, jobs: seq<JobInstance>) returns (steps: seq<Step>)
    requires a in s.nodes && b in s.nodes
    requires Enabled(s, Gossip(a, jobs, false)) && |s.nodes[a].mem.jobs| <= REQUESTED_LIMIT
    ensures Runs(s, steps) && AllQuiet(steps)
    ensures forall id :: Knows(s, a, id) ==> EverHears(s, steps, b, id, Stamp(s, a, id))
  {
    steps := RoundDelivers(s, a, b, jobs);
    var m := s.nodes[a].mem.jobs;
    SnapshotComplete(jobs, m, REQUESTED_LIMIT, false);
    forall id | Knows(s, a, id)
      ensures EverHears(s, steps, b, id, Stamp(s, a, id))
    {
      assert id in IdsOf(jobs);
      var i :| 0 <= i < |jobs| && jobs[i].id == id;
      assert StripAll(m, false)[id] == jobs[i];
      assert jobs[i] in jobs;
    }
  }

  // ---------- a conflict ----------

  const SPEC := JobSpec("build", Wasm("file:/a.wasm", None), [])
  const START := State(map["a" := Node(DefaultStore(), None, []), "b" := Node(DefaultStore(), None, [])], {}, 0)
  const NOW := Reads(0, 0, 0, 0, 0)

  /** A job is submitted and saved at one node, */
  const SAVE: seq<Step> := [Act("a", Submit(SPEC, None, None), NOW)] + ([Work("a", 0)] + [])

  /** announced, and received at the other. */
  const ANNOUNCE: seq<Step> := SAVE + [Announce("a", "a-1")]

  const SHARE: seq<Step> := ANNOUNCE + [ReceiveSubmit("b", SubmitJob("a", "a-1", SPEC), NOW)]

  /** In the same second one node starts it and the other fails it. */
  const DIVERGE: seq<Step> := [Act("a", Start("a-1"), NOW)] + ([Act("b", Fail("a-1", "timeout"), NOW)] + [])

  const CONFLICT: seq<Step> := SHARE + DIVERGE

  /** In one second one of two nodes starts a job and the other fails it. */
  lemma ConflictFromShared(s: State)
    requires s.nodes.Keys == {"a", "b"} && HasAt(s, "a", "a-1", 0) && HasAt(s, "b", "a-1", 0)
    ensures Runs(s, DIVERGE)
    ensures var t := Final(s, DIVERGE);
            && t.nodes.Keys == {"a", "b"} && HasAt(t, "a", "a-1", 0) && HasAt(t, "b", "a-1", 0)
            && RecordOf(t, "a", "a-1").status == Running && RecordOf(t, "b", "a-1").status == Failed
  {
    var start, fail := Act("a", Start("a-1"), NOW), Act("b", Fail("a-1", "timeout"), NOW);
    RunStep(Exec(s, start), fail, []);
    RunStep(s, start, [fail] + []);
  }

  /** The submitted job as snapshots carry it. */
  const RECORD := NewJob("a-1", "a", SPEC, 0, 0)

  lemma JobSaved() returns (s: State)
    ensures Initial(START) && Runs(START, SAVE) && s == Final(START, SAVE)
    ensures s.nodes.Keys == {"a", "b"} && s.net == {} && s.nodes["b"] == START.nodes["b"]
    ensures s.nodes["a"].mem.jobs.Keys == {"a-1"} && s.nodes["a"].tasks == [] && CounterSaved(s.nodes["a"])
    ensures Strip(RecordOf(s, "a", "a-1"), false) == RECORD && RecordOf(s, "a", "a-1").logs != []
  {
    assert Decimal(1) == "1" && JobIdOf("a", 1) == "a-1";
    var submit, save := Act("a", Submit(SPEC, None, None), NOW), Work("a", 0);
    var s1 := Exec(START, submit);
    assert s1.nodes["a"].mem.jobs.Keys == {"a-1"} && s1.nodes["a"].tasks == [[]];
    s := Exec(s1, save);
    RunStep(s1, save, []);
    RunStep(START, submit, [save] + []);
  }

  lemma JobAnnounced() returns (s: State)
    ensures Initial(START) && Runs(START, ANNOUNCE) && s == Final(START, ANNOUNCE)
    ensures s.nodes.Keys == {"a", "b"} && SubmitJob("a", "a-1", SPEC) in s.net && s.nodes["b"] == START.nodes["b"]
    ensures s.nodes["a"].mem.jobs.Keys == {"a-1"} && s.nodes["a"].tasks == [] && CounterSaved(s.nodes["a"])
    ensures HasAt(s, "a", "a-1", 0) && RecordOf(s, "a", "a-1").logs != []
  {
    var saved := JobSaved();
    assert RecordOf(saved, "a", "a-1").spec == RECORD.spec && RecordOf(saved, "a", "a-1").originNodeId == RECORD.originNodeId;
    OneStep(START, SAVE, Announce("a", "a-1"));
    s := Final(START, ANNOUNCE);
  }

  /** A job submitted at one node reaches the other within the second. */
  lemma JobShared() returns (s: State)
    ensures Initial(START) && Runs(START, SHARE) && s == Final(START, SHARE)
    ensures s.nodes.Keys == {"a", "b"} && s.nodes["a"].tasks == []
    ensures s.nodes["b"].mem.jobs.Keys == {"a-1"} && CounterSaved(s.nodes["b"])
    ensures HasAt(s, "a", "a-1", 0) && RecordOf(s, "a", "a-1").logs != [] && HasAt(s, "b", "a-1", 0)
  {
    var announced := JobAnnounced();
    OneStep(START, ANNOUNCE, ReceiveSubmit("b", SubmitJob("a", "a-1", SPEC), NOW));
    s := Final(START, SHARE);
  }

  lemma BothNewest(s: State)
    requires s.nodes.Keys == {"a", "b"} && HasAt(s, "a", "a-1", 0) && HasAt(s, "b", "a-1", 0)
    ensures Newest(s, "a-1", 0)
  {
  }

  lemma Diverged() returns (s: State)
    ensures Initial(START) && Runs(START, CONFLICT) && s == Final(START, CONFLICT)
    ensures s.nodes.Keys == {"a", "b"} && HasAt(s, "a", "a-1", 0) && HasAt(s, "b", "a-1", 0)
    ensures RecordOf(s, "a", "a-1").status == Running && RecordOf(s, "b", "a-1").status == Failed
  {
    var shared := JobShared();
    ConflictFromShared(shared);
    RunsJoin(START, SHARE, DIVERGE);
    s := Final(START, CONFLICT);
  }

  lemma ConflictArises()
    ensures Initial(START) && Runs(START, CONFLICT) && NoRestart(CONFLICT)
    ensures var s := Final(START, CONFLICT);
            && Knows(s, "a", "a-1") && Knows(s, "b", "a-1")
            && Newest(s, "a-1", Stamp(s, "a", "a-1")) && Stamp(s, "b", "a-1") == Stamp(s, "a", "a-1")
            && RecordOf(s, "a", "a-1").status == Running && RecordOf(s, "b", "a-1").status == Failed
  {
    var s := Diverged();
    BothNewest(s);
  }

  /** The hypothesis does fail in reachable states: after that run the two nodes
      stay different whatever is gossiped. */
  lemma SameSecondConflict(steps: seq<Step>)
    ensures Initial(START) && Runs(START, CONFLICT) && NoRestart(CONFLICT)
    ensures var s := Final(START, CONFLICT);
            Runs(s, steps) && AllQuiet(steps) ==> !SharesWith(Final(s, steps), "a", "b")
  {
    ConflictArises();
    ReachableCovered(START, CONFLICT);
    var s := Final(START, CONFLICT);
    if Runs(s, steps) && AllQuiet(steps) {
      AgreementNeedsNoConflict(s, steps, "a", "b", "a-1");
      assert Core(RecordOf(s, "a", "a-1")).status != Core(RecordOf(s, "b", "a-1")).status;
    }
  }

  // ---------- a conflict of one node with itself ----------

  /** A node sends a snapshot with its new job, and starts the job in the same second. */
  const OUTRUN: seq<Step> :=
    SAVE + [Gossip("a", [RECORD], false)] + [Act("a", Start("a-1"), NOW)] + [Work("a", 0)]

  /** The other node hears the snapshot. */
  const HEAR: seq<Step> := [ReceiveSync("b", SyncJobs([RECORD]))] + ([Work("b", 0)] + [])

  lemma SnapshotSent() returns (s: State)
    ensures Initial(START) && Runs(START, SAVE + [Gossip("a", [RECORD], false)])
    ensures s == Final(START, SAVE + [Gossip("a", [RECORD], false)])
    ensures s.nodes.Keys == {"a", "b"} && s.net == {SyncJobs([RECORD])} && s.nodes["b"] == START.nodes["b"]
    ensures s.nodes["a"].tasks == [] && s.nodes["a"].mem.jobs.Keys == {"a-1"}
    ensures HasAt(s, "a", "a-1", 0)
  {
    var saved := JobSaved();
    var m := saved.nodes["a"].mem.jobs;
    assert m["a-1"].id == RECORD.id && m["a-1"].updatedAt == RECORD.updatedAt;
    var jobs := SnapshotExists(m, REQUESTED_LIMIT, false);
    OnlyRecord(jobs, m, REQUESTED_LIMIT, false, "a-1");
    OneStep(START, SAVE, Gossip("a", [RECORD], false));
    s := Final(START, SAVE + [Gossip("a", [RECORD], false)]);
  }

  /** What is then the case: one node has started the job, its pending form is under
      way, and the other node knows nothing yet. */
  ghost predicate IsOutrun(s: State) {
    && s.nodes.Keys == {"a", "b"} && s.net == {SyncJobs([RECORD])} && s.nodes["b"] == START.nodes["b"]
    && s.nodes["a"].tasks == [] && s.nodes["a"].mem.jobs.Keys == {"a-1"}
    && HasAt(s, "a", "a-1", 0) && RecordOf(s, "a", "a-1").status == Running
  }

  lemma StartedSaved(s: State)
    requires s.nodes.Keys == {"a", "b"} && s.nodes["a"].tasks == [] && s.nodes["a"].mem.jobs.Keys == {"a-1"}
    requires HasAt(s, "a", "a-1", 0)
    ensures var start := Act("a", Start("a-1"), NOW);
            Enabled(s, start) &&
            var t := Exec(s, start);
            Enabled(t, Work("a", 0)) &&
            var u := Exec(t, Work("a", 0));
            && u.nodes.Keys == {"a", "b"} && u.net == s.net && u.nodes["b"] == s.nodes["b"]
            && u.nodes["a"].tasks == [] && u.nodes["a"].mem.jobs.Keys == {"a-1"}
            && HasAt(u, "a", "a-1", 0) && RecordOf(u, "a", "a-1").status == Running
  {
    var t := Exec(s, Act("a", Start("a-1"), NOW));
    assert t.nodes["a"].tasks == [[]];
  }

  lemma Outrun() returns (init: State, before: seq<Step>)
    ensures Initial(init) && Runs(init, before) && NoRestart(before) && IsOutrun(Final(init, before))
  {
    init, before := START, OUTRUN;
    var sent := SnapshotSent();
    var early, start := SAVE + [Gossip("a", [RECORD], false)], Act("a", Start("a-1"), NOW);
    OneStep(START, early, start);
    StartedSaved(sent);
    OneStep(START, early + [start], Work("a", 0));
  }

  /** The other node has heard the pending form. */
  ghost predicate Apart(t: State) {
    && t.nodes.Keys == {"a", "b"} && HasAt(t, "a", "a-1", 0) && HasAt(t, "b", "a-1", 0)
    && RecordOf(t, "a", "a-1").status == Running && RecordOf(t, "b", "a-1") == RECORD
  }

  lemma OutrunHeard(s: State)
    requires IsOutrun(s)
    ensures Runs(s, HEAR) && AllQuiet(HEAR) && Converged(s, Final(s, HEAR)) && Apart(Final(s, HEAR))
  {
    var receive, work := ReceiveSync("b", SyncJobs([RECORD])), Work("b", 0);
    var s1 := Exec(s, receive);
    assert s1.nodes["b"].tasks == [[RECORD]];
    RunStep(s1, work, []);
    RunStep(s, receive, [work] + []);
    assert forall a, id :: Knows(s, a, id) ==> a == "a" && id == "a-1";
  }

  lemma OnlyHolder(s: State)
    requires IsOutrun(s)
    ensures HoldersAgree(s) && !CarriersMatch(s)
  {
    assert forall a, id :: Knows(s, a, id) ==> a == "a" && id == "a-1";
    assert Newest(s, "a-1", 0);
    assert RECORD in SyncJobs([RECORD]).jobs;
    assert InFlight(s, RECORD);
    assert Core(RecordOf(s, "a", "a-1")).status != Core(RECORD).status;
  }

  /** No gossip run brings the two nodes together. */
  ghost predicate NeverShare(t: State) {
    forall more :: Runs(t, more) && AllQuiet(more) ==> !SharesWith(Final(t, more), "a", "b")
  }

  lemma ApartForGood(t: State)
    requires SoundState(t) && AllCovered(t) && Apart(t)
    ensures NeverShare(t)
  {
    forall more | Runs(t, more) && AllQuiet(more)
      ensures !SharesWith(Final(t, more), "a", "b")
    {
      BothNewest(t);
      AgreementNeedsNoConflict(t, more, "a", "b", "a-1");
      assert Core(RecordOf(t, "a", "a-1")).status != Core(RecordOf(t, "b", "a-1")).status;
    }
  }

  lemma OutrunRun(s: State)
    requires SoundState(s) && AllCovered(s) && IsOutrun(s)
    ensures Runs(s, HEAR) && AllQuiet(HEAR) && FullExchange(s, HEAR) && NeverShare(Final(s, HEAR))
    ensures Final(s, HEAR).nodes.Keys == {"a", "b"}
  {
    OutrunHeard(s);
    ConvergedIffExchange(s, HEAR);
    RunSound(s, HEAR);
    RunCovered(s, HEAR);
    ApartForGood(Final(s, HEAR));
  }

  lemma NeverShareMeansNotAll(t: State)
    requires NeverShare(t) && t.nodes.Keys == {"a", "b"}
    ensures !AllShare(t)
  {
    assert Runs(t, []) && AllQuiet([]) && Final(t, []) == t;
    assert "a" in t.nodes && "b" in t.nodes;
  }

  lemma OutrunExchange(s: State) returns (hear: seq<Step>)
    requires SoundState(s) && AllCovered(s) && IsOutrun(s)
    ensures Runs(s, hear) && AllQuiet(hear) && FullExchange(s, hear) && !FaithfulExchange(s, hear)
    ensures Settled(s) && HoldersAgree(s) && !CarriersMatch(s) && NeverShare(Final(s, hear))
  {
    hear := HEAR;
    OutrunRun(s);
    NeverShareMeansNotAll(Final(s, hear));
    OnlyHolder(s);
    AgreementIff(s, hear);
  }

  /** The state reached has but one holder, who agrees with itself, yet what is under
      way does not match it: a full exchange follows after which no gossip ever
      brings the two nodes together. */
  lemma OneNodeConflict() returns (init: State, before: seq<Step>, hear: seq<Step>)
    ensures Initial(init) && Runs(init, before) && NoRestart(before)
    ensures var s := Final(init, before);
            && Settled(s) && HoldersAgree(s) && !CarriersMatch(s)
            && Runs(s, hear) && AllQuiet(hear) && FullExchange(s, hear) && !FaithfulExchange(s, hear)
            && NeverShare(Final(s, hear))
  {
    init, before := Outrun();
    ReachableCovered(init, before);
    hear := OutrunExchange(Final(init, before));
  }
}
