/** What gossip guarantees when no node crashes: stamps only grow, and once the
    operations stop and the nodes have heard each other, all agree. */
module Convergence {
  import opened Jobs
  import opened JobStore
  import opened Listing
  import opened Cluster

  ghost predicate Knows(s: State, a: NodeId, id: JobId) {
    a in s.nodes && id in s.nodes[a].mem.jobs
  }

  ghost function RecordOf(s: State, a: NodeId, id: JobId): JobInstance
    requires Knows(s, a, id)
  {
    s.nodes[a].mem.jobs[id]
  }

  ghost function Stamp(s: State, a: NodeId, id: JobId): nat
    requires Knows(s, a, id)
  {
    RecordOf(s, a, id).updatedAt
  }

  ghost predicate HasAt(s: State, a: NodeId, id: JobId, stamp: nat) {
    Knows(s, a, id) && Stamp(s, a, id) == stamp
  }

  /** `stamp` is the newest stamp any node has for the job. */
  ghost predicate Newest(s: State, id: JobId, stamp: nat) {
    && (exists a :: HasAt(s, a, id, stamp))
    && (forall a :: Knows(s, a, id) ==> Stamp(s, a, id) <= stamp)
  }

  // ---------- stamps never decrease ----------

  ghost predicate NoRestart(steps: seq<Step>) {
    forall i :: 0 <= i < |steps| ==> !steps[i].Restart?
  }

  lemma StepStamps(s: State, step: Step, a: NodeId, id: JobId)
    requires SoundState(s) && Enabled(s, step) && !step.Restart? && Knows(s, a, id)
    ensures Knows(Exec(s, step), a, id) && Stamp(s, a, id) <= Stamp(Exec(s, step), a, id)
  {
    var n := s.nodes[step.node];
    assert SoundNode(n, s.clock);
    match step {
      case Act(self, op, r) => ApplySound(self, n.mem, op, r, s.clock);
      case ReceiveSubmit(self, msg, r) =>
        ApplySound(self, n.mem, Received(msg), r, s.clock);
      case _ =>
    }
  }

  /** A node never forgets a job and never goes back to an older stamp of it. */
  lemma {:induction false} StampsNeverDecrease(s: State, steps: seq<Step>, a: NodeId, id: JobId)
    requires SoundState(s) && Runs(s, steps) && NoRestart(steps) && Knows(s, a, id)
    ensures Knows(Final(s, steps), a, id) && Stamp(s, a, id) <= Stamp(Final(s, steps), a, id)
    decreases |steps|
  {
    if steps != [] {
      StepSound(s, steps[0]);
      StepStamps(s, steps[0], a, id);
      StampsNeverDecrease(Exec(s, steps[0]), steps[1..], a, id);
    }
  }

  // ---------- the gossip-only phase ----------

  /** The steps that remain when no operation is performed any more. */
  ghost predicate Quiet(step: Step) {
    step.Gossip? || step.ReceiveSync? || step.Work?
  }

  ghost predicate AllQuiet(steps: seq<Step>) {
    forall i :: 0 <= i < |steps| ==> Quiet(steps[i])
  }

  /** A record's content as far as every snapshot carries it. */
  function Core(j: JobInstance): JobInstance {
    Strip(j, true)
  }

  ghost predicate Circulates(s: State, j: JobInstance) {
    InFlight(s, j) || exists a :: Held(s, a, j)
  }

  /** Whatever circulates in `t` is, up to its log and artifacts, a record that
      circulates in `s`. */
  ghost predicate Derived(s: State, t: State) {
    forall j :: Circulates(t, j) ==> exists i :: Circulates(s, i) && Core(i) == Core(j)
  }

  lemma NewInFlight(s: State, step: Step, j: JobInstance)
    requires Enabled(s, step) && Quiet(step) && InFlight(Exec(s, step), j)
    ensures InFlight(s, j) || (step.Gossip? && j in step.jobs)
  {
    var t := Exec(s, step);
    if m :| m in t.net && m.SyncJobs? && j in m.jobs {
      if m in s.net {
      } else {
        assert m == SyncJobs(step.jobs);
      }
    } else {
      var a, k :| a in t.nodes && 0 <= k < |t.nodes[a].tasks| && j in t.nodes[a].tasks[k];
      if a == step.node {
        var n := s.nodes[a];
        match step {
          case Work(_, w) =>
            if n.tasks[w] == [] {
              var k' := if k < w then k else k + 1;
              assert t.nodes[a].tasks[k] == n.tasks[k'];
            } else {
              assert j in n.tasks[k];
            }
          case ReceiveSync(_, msg) =>
            assert msg in t.net && t.nodes[a].tasks[|n.tasks|] == msg.jobs;
            assert j in n.tasks[k];
          case Gossip(_, _, _) => assert j in n.tasks[k];
        }
      } else {
        assert j in s.nodes[a].tasks[k];
      }
    }
  }

  lemma NewHeld(s: State, step: Step, a: NodeId, j: JobInstance)
    requires Enabled(s, step) && Quiet(step) && Held(Exec(s, step), a, j)
    ensures Held(s, a, j) || InFlight(s, j)
  {
    if step.Work? && step.node == a {
      var n := s.nodes[a];
      if n.tasks[step.task] != [] && !Held(s, a, j) {
        assert j == n.tasks[step.task][0];
        assert j in n.tasks[step.task];
      }
    }
  }

  lemma QuietStepDerives(s: State, step: Step, j: JobInstance) returns (i: JobInstance)
    requires SoundState(s) && Enabled(s, step) && Quiet(step) && Circulates(Exec(s, step), j)
    ensures Circulates(s, i) && Core(i) == Core(j)
  {
    var t := Exec(s, step);
    if InFlight(t, j) {
      NewInFlight(s, step, j);
      if InFlight(s, j) {
        i := j;
      } else {
        var m := s.nodes[step.node].mem.jobs;
        assert SoundNode(s.nodes[step.node], s.clock);
        var k :| 0 <= k < |step.jobs| && step.jobs[k] == j;
        assert StripAll(m, step.periodic)[j.id] == j;
        i := m[j.id];
        assert Held(s, step.node, i);
      }
    } else {
      var a :| Held(t, a, j);
      NewHeld(s, step, a, j);
      i := j;
    }
  }

  lemma {:induction false} QuietRunDerives(s: State, steps: seq<Step>)
    requires SoundState(s) && Runs(s, steps) && AllQuiet(steps)
    ensures Derived(s, Final(s, steps))
    decreases |steps|
  {
    if steps != [] {
      var t := Exec(s, steps[0]);
      StepSound(s, steps[0]);
      QuietRunDerives(t, steps[1..]);
      forall j | Circulates(Final(s, steps), j)
        ensures exists i :: Circulates(s, i) && Core(i) == Core(j)
      {
        var h :| Circulates(t, h) && Core(h) == Core(j);
        var i := QuietStepDerives(s, steps[0], h);
      }
    }
  }

  // ---------- no message is ahead of every node ----------

  /** Some node holds the job at least as new as `j`. */
  ghost predicate Covered(s: State, j: JobInstance) {
    exists a :: Knows(s, a, j.id) && j.updatedAt <= Stamp(s, a, j.id)
  }

  ghost predicate AllCovered(s: State) {
    forall j :: InFlight(s, j) ==> Covered(s, j)
  }

  lemma OtherStepsCarryNothing(s: State, step: Step, j: JobInstance)
    requires Enabled(s, step) && !Quiet(step) && InFlight(Exec(s, step), j)
    ensures InFlight(s, j)
  {
    var t := Exec(s, step);
    if m :| m in t.net && m.SyncJobs? && j in m.jobs {
      assert m in s.net;
    } else {
      var a, k :| a in t.nodes && 0 <= k < |t.nodes[a].tasks| && j in t.nodes[a].tasks[k];
      assert k < |s.nodes[a].tasks| && j in s.nodes[a].tasks[k];
    }
  }

  lemma StepCovered(s: State, step: Step)
    requires SoundState(s) && Enabled(s, step) && !step.Restart? && AllCovered(s)
    ensures AllCovered(Exec(s, step))
  {
    var t := Exec(s, step);
    forall j | InFlight(t, j)
      ensures Covered(t, j)
    {
      if Quiet(step) {
        NewInFlight(s, step, j);
      } else {
        OtherStepsCarryNothing(s, step, j);
      }
      var a;
      if InFlight(s, j) {
        a :| Knows(s, a, j.id) && j.updatedAt <= Stamp(s, a, j.id);
      } else {
        a := step.node;
        var k :| 0 <= k < |step.jobs| && step.jobs[k] == j;
        assert StripAll(s.nodes[a].mem.jobs, step.periodic)[j.id] == j;
      }
      StepStamps(s, step, a, j.id);
    }
  }

  lemma {:induction false} RunCovered(s: State, steps: seq<Step>)
    requires SoundState(s) && Runs(s, steps) && NoRestart(steps) && AllCovered(s)
    ensures AllCovered(Final(s, steps))
    decreases |steps|
  {
    if steps != [] {
      StepSound(s, steps[0]);
      StepCovered(s, steps[0]);
      RunCovered(Exec(s, steps[0]), steps[1..]);
    }
  }

  lemma ReachableCovered(s: State, steps: seq<Step>)
    requires Initial(s) && Runs(s, steps) && NoRestart(steps)
    ensures SoundState(Final(s, steps)) && AllCovered(Final(s, steps))
  {
    RunSound(s, steps);
    RunCovered(s, steps);
  }

  // ---------- hearing ----------

  /** In this step `b` merges a record of `id` stamped at least `stamp`. */
  ghost predicate Hears(s: State, step: Step, b: NodeId, id: JobId, stamp: nat)
    requires Enabled(s, step)
  {
    step.Work? && step.node == b &&
    var task := s.nodes[b].tasks[step.task];
    task != [] && task[0].id == id && task[0].updatedAt >= stamp
  }

  ghost predicate EverHears(s: State, steps: seq<Step>, b: NodeId, id: JobId, stamp: nat)
    requires Runs(s, steps)
    decreases |steps|
  {
    steps != [] &&
    (Hears(s, steps[0], b, id, stamp) || EverHears(Exec(s, steps[0]), steps[1..], b, id, stamp))
  }

  lemma {:induction false} HeardIsKept(s: State, steps: seq<Step>, b: NodeId, id: JobId, stamp: nat)
    requires SoundState(s) && Runs(s, steps) && AllQuiet(steps) && b in s.nodes
    requires EverHears(s, steps, b, id, stamp)
    ensures Knows(Final(s, steps), b, id) && stamp <= Stamp(Final(s, steps), b, id)
    decreases |steps|
  {
    var t := Exec(s, steps[0]);
    StepSound(s, steps[0]);
    if Hears(s, steps[0], b, id, stamp) {
      assert Knows(t, b, id) && stamp <= Stamp(t, b, id);
      StampsNeverDecrease(t, steps[1..], b, id);
    } else {
      HeardIsKept(t, steps[1..], b, id, stamp);
    }
  }

  lemma {:induction false} QuietNodes(s: State, steps: seq<Step>)
    requires Runs(s, steps) && AllQuiet(steps)
    ensures Final(s, steps).nodes.Keys == s.nodes.Keys
    decreases |steps|
  {
    if steps != [] {
      QuietNodes(Exec(s, steps[0]), steps[1..]);
    }
  }

  lemma CoreFields(i: JobInstance, j: JobInstance)
    requires Core(i) == Core(j)
    ensures i.id == j.id && i.updatedAt == j.updatedAt
  {
    assert i.id == Core(i).id && j.id == Core(j).id;
    assert i.updatedAt == Core(i).updatedAt && j.updatedAt == Core(j).updatedAt;
  }

  lemma AncestorIn(s: State, t: State, a: NodeId, j: JobInstance) returns (i: JobInstance)
    requires Derived(s, t) && Held(t, a, j)
    ensures Circulates(s, i) && Core(i) == Core(j) && i.id == j.id && i.updatedAt == j.updatedAt
  {
    assert Circulates(t, j);
    i :| Circulates(s, i) && Core(i) == Core(j);
    CoreFields(i, j);
  }

  /** What a node holds after a quiet run circulated before it. */
  lemma Ancestor(s: State, steps: seq<Step>, a: NodeId, id: JobId) returns (i: JobInstance)
    requires SoundState(s) && Runs(s, steps) && AllQuiet(steps) && Knows(Final(s, steps), a, id)
    ensures Circulates(s, i) && Core(i) == Core(RecordOf(Final(s, steps), a, id))
    ensures i.id == id && i.updatedAt == Stamp(Final(s, steps), a, id)
  {
    var t := Final(s, steps);
    RunSound(s, steps);
    assert SoundNode(t.nodes[a], t.clock);
    QuietRunDerives(s, steps);
    i := AncestorIn(s, t, a, RecordOf(t, a, id));
  }

  lemma Origin(s: State, steps: seq<Step>, a: NodeId, id: JobId) returns (c: NodeId)
    requires SoundState(s) && AllCovered(s) && Runs(s, steps) && AllQuiet(steps)
    requires Knows(Final(s, steps), a, id)
    ensures Knows(s, c, id) && Stamp(Final(s, steps), a, id) <= Stamp(s, c, id)
  {
    var i := Ancestor(s, steps, a, id);
    if InFlight(s, i) {
      assert Covered(s, i);
      c :| Knows(s, c, i.id) && i.updatedAt <= Stamp(s, c, i.id);
    } else {
      c :| Held(s, c, i);
    }
  }

  lemma NewestOf(s: State, id: JobId, among: set<NodeId>) returns (top: NodeId)
    requires among != {} && forall a :: a in among ==> Knows(s, a, id)
    ensures top in among && forall a :: a in among ==> Stamp(s, a, id) <= Stamp(s, top, id)
    decreases |among|
  {
    top :| top in among;
    if among != {top} {
      var other := NewestOf(s, id, among - {top});
      if Stamp(s, top, id) < Stamp(s, other, id) {
        top := other;
      }
    }
  }

  lemma NewestExists(s: State, id: JobId, a: NodeId) returns (stamp: nat)
    requires Knows(s, a, id)
    ensures Newest(s, id, stamp)
  {
    var holders := set b | b in s.nodes && id in s.nodes[b].mem.jobs;
    assert a in holders;
    var top := NewestOf(s, id, holders);
    stamp := Stamp(s, top, id);
    assert HasAt(s, top, id, stamp);
  }

  // ---------- convergence ----------

  /** The newest version of every job reaches every node that lacks it. */
  ghost predicate FullExchange(s: State, steps: seq<Step>)
    requires Runs(s, steps)
  {
    forall b, id, stamp :: b in s.nodes && Newest(s, id, stamp) ==>
      HasAt(s, b, id, stamp) || EverHears(s, steps, b, id, stamp)
  }

  /** In `t` every node has every job at the newest stamp any node had for it in `s`. */
  ghost predicate Converged(s: State, t: State) {
    forall b, id, stamp :: b in s.nodes && Newest(s, id, stamp) ==> HasAt(t, b, id, stamp)
  }

  lemma NeverBeyond(s: State, steps: seq<Step>, b: NodeId, id: JobId, stamp: nat)
    requires SoundState(s) && AllCovered(s) && Runs(s, steps) && AllQuiet(steps) && Newest(s, id, stamp)
    requires Knows(Final(s, steps), b, id)
    ensures Stamp(Final(s, steps), b, id) <= stamp
  {
    var c := Origin(s, steps, b, id);
  }

  lemma ExchangeConverges(s: State, steps: seq<Step>, b: NodeId, id: JobId, stamp: nat)
    requires SoundState(s) && AllCovered(s) && Runs(s, steps) && AllQuiet(steps)
    requires b in s.nodes && Newest(s, id, stamp) && (HasAt(s, b, id, stamp) || EverHears(s, steps, b, id, stamp))
    ensures HasAt(Final(s, steps), b, id, stamp)
  {
    if HasAt(s, b, id, stamp) {
      StampsNeverDecrease(s, steps, b, id);
    } else {
      HeardIsKept(s, steps, b, id, stamp);
    }
    NeverBeyond(s, steps, b, id, stamp);
  }

  /** A node reaches a stamp only by having it or by hearing of it. */
  lemma {:induction false} ReachedMeansHeard(s: State, steps: seq<Step>, b: NodeId, id: JobId, stamp: nat)
    requires Runs(s, steps) && AllQuiet(steps)
    requires Knows(Final(s, steps), b, id) && stamp <= Stamp(Final(s, steps), b, id)
    ensures (Knows(s, b, id) && stamp <= Stamp(s, b, id)) || EverHears(s, steps, b, id, stamp)
    decreases |steps|
  {
    if steps != [] {
      ReachedMeansHeard(Exec(s, steps[0]), steps[1..], b, id, stamp);
    }
  }

  /** The stamps converge exactly in the runs that are full exchanges. */
  lemma ConvergedIffExchange(s: State, steps: seq<Step>)
    requires SoundState(s) && AllCovered(s) && Runs(s, steps) && AllQuiet(steps)
    ensures Converged(s, Final(s, steps)) <==> FullExchange(s, steps)
  {
    var t := Final(s, steps);
    forall b, id, stamp | b in s.nodes && Newest(s, id, stamp)
      ensures HasAt(t, b, id, stamp) <==> HasAt(s, b, id, stamp) || EverHears(s, steps, b, id, stamp)
    {
      if HasAt(t, b, id, stamp) {
        ReachedMeansHeard(s, steps, b, id, stamp);
      }
      if HasAt(s, b, id, stamp) || EverHears(s, steps, b, id, stamp) {
        ExchangeConverges(s, steps, b, id, stamp);
      }
    }
  }

  /** After a full exchange every node has every job, at the newest stamp any node
      had for it when operations stopped. */
  lemma StampsConverge(s: State, steps: seq<Step>, a: NodeId, b: NodeId, id: JobId)
    requires SoundState(s) && AllCovered(s) && Runs(s, steps) && AllQuiet(steps) && FullExchange(s, steps)
    requires Knows(Final(s, steps), a, id) && b in Final(s, steps).nodes
    ensures Knows(Final(s, steps), b, id)
    ensures Newest(s, id, Stamp(Final(s, steps), b, id))
    ensures Stamp(Final(s, steps), b, id) == Stamp(Final(s, steps), a, id)
  {
    QuietNodes(s, steps);
    var c := Origin(s, steps, a, id);
    var stamp := NewestExists(s, id, c);
    ExchangeConverges(s, steps, a, id, stamp);
    ExchangeConverges(s, steps, b, id, stamp);
  }

  /** No two circulating records of a job differ in content at its newest stamp. */
  ghost predicate NoConflict(s: State) {
    forall i, j :: Circulates(s, i) && Circulates(s, j) && i.id == j.id && i.updatedAt == j.updatedAt
                   && Newest(s, i.id, i.updatedAt)
      ==> Core(i) == Core(j)
  }

  /** Two nodes that end at the newest stamp of a job hold the same content. */
  lemma SameStampSameContent(s: State, steps: seq<Step>, a: NodeId, b: NodeId, id: JobId)
    requires SoundState(s) && Runs(s, steps) && AllQuiet(steps) && NoConflict(s)
    requires var t := Final(s, steps); Knows(t, a, id) && Knows(t, b, id) && Stamp(t, a, id) == Stamp(t, b, id)
    requires Newest(s, id, Stamp(Final(s, steps), a, id))
    ensures Core(RecordOf(Final(s, steps), a, id)) == Core(RecordOf(Final(s, steps), b, id))
  {
    var i := Ancestor(s, steps, a, id);
    var j := Ancestor(s, steps, b, id);
  }

  /** Everything a knows of, b knows with the same content. */
  ghost predicate SharesWith(t: State, a: NodeId, b: NodeId) {
    forall id :: Knows(t, a, id) ==> Knows(t, b, id) && Core(RecordOf(t, a, id)) == Core(RecordOf(t, b, id))
  }

  ghost predicate AllShare(t: State) {
    forall a, b :: a in t.nodes && b in t.nodes ==> SharesWith(t, a, b)
  }

  lemma OneSideShares(s: State, steps: seq<Step>, a: NodeId, b: NodeId)
    requires SoundState(s) && AllCovered(s) && Runs(s, steps) && AllQuiet(steps)
    requires FullExchange(s, steps) && NoConflict(s) && b in Final(s, steps).nodes
    ensures SharesWith(Final(s, steps), a, b)
  {
    forall id | Knows(Final(s, steps), a, id)
      ensures Knows(Final(s, steps), b, id)
              && Core(RecordOf(Final(s, steps), a, id)) == Core(RecordOf(Final(s, steps), b, id))
    {
      StampsConverge(s, steps, a, b, id);
      SameStampSameContent(s, steps, a, b, id);
    }
  }

  /** The cluster theorem: from any state reached without a crash, once only
      gossip remains and has gone all the way round, all nodes hold the same
      jobs with the same content, provided the newest stamps meant equal content. */
  lemma ClusterConverges(init: State, before: seq<Step>, steps: seq<Step>)
    requires Initial(init) && Runs(init, before) && NoRestart(before)
    requires var s := Final(init, before); Runs(s, steps) && AllQuiet(steps) && FullExchange(s, steps) && NoConflict(s)
    ensures AllShare(Final(Final(init, before), steps))
  {
    var s := Final(init, before);
    ReachableCovered(init, before);
    forall a, b | a in Final(s, steps).nodes && b in Final(s, steps).nodes
      ensures SharesWith(Final(s, steps), a, b)
    {
      OneSideShares(s, steps, a, b);
    }
  }

  // ---------- conflicts ----------

  lemma QuietStepKeepsNewest(s: State, step: Step, a: NodeId, id: JobId)
    requires SoundState(s) && AllCovered(s) && Enabled(s, step) && Quiet(step)
    requires Knows(s, a, id) && Newest(s, id, Stamp(s, a, id))
    ensures Knows(Exec(s, step), a, id) && RecordOf(Exec(s, step), a, id) == RecordOf(s, a, id)
    ensures Newest(Exec(s, step), id, Stamp(s, a, id))
  {
    var t, top := Exec(s, step), Stamp(s, a, id);
    if step.Work? && s.nodes[step.node].tasks[step.task] != [] {
      var j := s.nodes[step.node].tasks[step.task][0];
      assert j in s.nodes[step.node].tasks[step.task];
      assert InFlight(s, j);
      assert Covered(s, j);
    }
    assert HasAt(t, a, id, top);
    forall b | Knows(t, b, id)
      ensures Stamp(t, b, id) <= top
    {
      if Knows(s, b, id) {
        assert Stamp(s, b, id) <= top;
      }
    }
  }

  /** Two nodes that hold different records under one newest stamp keep them
      through every further gossip run: the difference is never repaired. */
  lemma ConflictIsPermanent(s: State, steps: seq<Step>, a: NodeId, id: JobId)
    requires SoundState(s) && AllCovered(s) && Runs(s, steps) && AllQuiet(steps)
    requires Knows(s, a, id) && Newest(s, id, Stamp(s, a, id))
    ensures Knows(Final(s, steps), a, id) && RecordOf(Final(s, steps), a, id) == RecordOf(s, a, id)
    decreases |steps|
  {
    if steps != [] {
      var t := Exec(s, steps[0]);
      StepSound(s, steps[0]);
      StepCovered(s, steps[0]);
      QuietStepKeepsNewest(s, steps[0], a, id);
      ConflictIsPermanent(t, steps[1..], a, id);
    }
  }

  /** Nodes can come to share a job only if those that held its newest stamp when
      operations stopped already held the same content. */
  lemma AgreementNeedsNoConflict(s: State, steps: seq<Step>, a: NodeId, b: NodeId, id: JobId)
    requires SoundState(s) && AllCovered(s) && Runs(s, steps) && AllQuiet(steps)
    requires Knows(s, a, id) && Newest(s, id, Stamp(s, a, id))
    requires Knows(s, b, id) && Stamp(s, b, id) == Stamp(s, a, id)
    ensures SharesWith(Final(s, steps), a, b) ==> Core(RecordOf(s, a, id)) == Core(RecordOf(s, b, id))
  {
    ConflictIsPermanent(s, steps, a, id);
    ConflictIsPermanent(s, steps, b, id);
  }

  // ---------- exactly when the nodes agree ----------

  /** The holders of each job's newest stamp hold the same content. */
  ghost predicate HoldersAgree(s: State) {
    forall a, b, id, stamp :: HasAt(s, a, id, stamp) && HasAt(s, b, id, stamp) && Newest(s, id, stamp)
      ==> Core(RecordOf(s, a, id)) == Core(RecordOf(s, b, id))
  }

  /** What is under way at a newest stamp is what some holder of it holds. */
  ghost predicate CarriersMatch(s: State) {
    forall j :: InFlight(s, j) && Newest(s, j.id, j.updatedAt) ==>
      exists a :: HasAt(s, a, j.id, j.updatedAt) && Core(RecordOf(s, a, j.id)) == Core(j)
  }

  lemma HolderOf(s: State, j: JobInstance) returns (a: NodeId)
    requires CarriersMatch(s) && Circulates(s, j) && Newest(s, j.id, j.updatedAt)
    ensures HasAt(s, a, j.id, j.updatedAt) && Core(RecordOf(s, a, j.id)) == Core(j)
  {
    if InFlight(s, j) {
      a :| HasAt(s, a, j.id, j.updatedAt) && Core(RecordOf(s, a, j.id)) == Core(j);
    } else {
      a :| Held(s, a, j);
    }
  }

  lemma AgreeingHolders(s: State)
    requires HoldersAgree(s) && CarriersMatch(s)
    ensures NoConflict(s)
  {
    forall i, j | Circulates(s, i) && Circulates(s, j) && i.id == j.id && i.updatedAt == j.updatedAt
                  && Newest(s, i.id, i.updatedAt)
      ensures Core(i) == Core(j)
    {
      var a := HolderOf(s, i);
      var b := HolderOf(s, j);
    }
  }

  lemma SharingMeansExchange(s: State, steps: seq<Step>)
    requires SoundState(s) && AllCovered(s) && Runs(s, steps) && AllQuiet(steps) && AllShare(Final(s, steps))
    ensures FullExchange(s, steps)
  {
    var t := Final(s, steps);
    QuietNodes(s, steps);
    forall b, id, stamp | b in s.nodes && Newest(s, id, stamp)
      ensures HasAt(t, b, id, stamp)
    {
      var a :| HasAt(s, a, id, stamp);
      ExchangeConverges(s, steps, a, id, stamp);
      assert SharesWith(t, a, b);
      CoreFields(RecordOf(t, a, id), RecordOf(t, b, id));
    }
    ConvergedIffExchange(s, steps);
  }

  /** Of the records of the job at that stamp or above that `b` merges, the first
      has the given content: that is the one it adopts, and keeps. */
  ghost predicate FirstHears(s: State, steps: seq<Step>, b: NodeId, id: JobId, stamp: nat, core: JobInstance)
    requires Runs(s, steps)
    decreases |steps|
  {
    steps != [] &&
    if Hears(s, steps[0], b, id, stamp) then Core(s.nodes[b].tasks[steps[0].task][0]) == core
    else FirstHears(Exec(s, steps[0]), steps[1..], b, id, stamp, core)
  }

  lemma {:induction false} SomethingHeardFirst(s: State, steps: seq<Step>, b: NodeId, id: JobId, stamp: nat)
    returns (core: JobInstance)
    requires Runs(s, steps) && EverHears(s, steps, b, id, stamp)
    ensures FirstHears(s, steps, b, id, stamp, core)
    decreases |steps|
  {
    if Hears(s, steps[0], b, id, stamp) {
      core := Core(s.nodes[b].tasks[steps[0].task][0]);
    } else {
      core := SomethingHeardFirst(Exec(s, steps[0]), steps[1..], b, id, stamp);
    }
  }

  ghost function HeldCore(s: State, a: NodeId, id: JobId): JobInstance
    requires Knows(s, a, id)
  {
    Core(RecordOf(s, a, id))
  }

  lemma HearingAdopts(s: State, step: Step, b: NodeId, id: JobId, stamp: nat)
    requires SoundState(s) && AllCovered(s) && Enabled(s, step) && Quiet(step)
    requires Newest(s, id, stamp) && !HasAt(s, b, id, stamp) && Hears(s, step, b, id, stamp)
    ensures var j := s.nodes[b].tasks[step.task][0];
            HasAt(Exec(s, step), b, id, stamp) && RecordOf(Exec(s, step), b, id) == j
  {
    var j := s.nodes[b].tasks[step.task][0];
    assert j in s.nodes[b].tasks[step.task];
    assert InFlight(s, j);
    assert Covered(s, j);
  }

  lemma UnheardStillLacks(s: State, step: Step, b: NodeId, id: JobId, stamp: nat)
    requires Enabled(s, step) && Quiet(step)
    requires Newest(s, id, stamp) && !HasAt(s, b, id, stamp) && !Hears(s, step, b, id, stamp)
    ensures !HasAt(Exec(s, step), b, id, stamp)
  {
    assert Knows(s, b, id) ==> Stamp(s, b, id) < stamp;
  }

  /** A node that lacks a newest version ends with what it hears of it first. */
  lemma {:induction false} FirstHeardIsKept(s: State, steps: seq<Step>, b: NodeId, id: JobId, stamp: nat, core: JobInstance)
    requires SoundState(s) && AllCovered(s) && Runs(s, steps) && AllQuiet(steps)
    requires Newest(s, id, stamp) && !HasAt(s, b, id, stamp) && FirstHears(s, steps, b, id, stamp, core)
    ensures Knows(Final(s, steps), b, id) && HeldCore(Final(s, steps), b, id) == core
    decreases |steps|
  {
    var t := Exec(s, steps[0]);
    var a :| HasAt(s, a, id, stamp);
    StepSound(s, steps[0]);
    StepCovered(s, steps[0]);
    QuietStepKeepsNewest(s, steps[0], a, id);
    if Hears(s, steps[0], b, id, stamp) {
      HearingAdopts(s, steps[0], b, id, stamp);
      ConflictIsPermanent(t, steps[1..], b, id);
    } else {
      UnheardStillLacks(s, steps[0], b, id, stamp);
      FirstHeardIsKept(t, steps[1..], b, id, stamp, core);
    }
  }

  ghost predicate HearsHolder(s: State, steps: seq<Step>, b: NodeId, id: JobId, stamp: nat)
    requires Runs(s, steps)
  {
    exists a :: HasAt(s, a, id, stamp) && FirstHears(s, steps, b, id, stamp, HeldCore(s, a, id))
  }

  /** Each node that lacks a newest version hears of it first what some holder holds. */
  ghost predicate FaithfulExchange(s: State, steps: seq<Step>)
    requires Runs(s, steps)
  {
    forall b, id, stamp :: b in s.nodes && Newest(s, id, stamp) ==>
      HasAt(s, b, id, stamp) || HearsHolder(s, steps, b, id, stamp)
  }

  lemma HolderKeeps(s: State, steps: seq<Step>, a: NodeId, id: JobId, stamp: nat)
    requires SoundState(s) && AllCovered(s) && Runs(s, steps) && AllQuiet(steps)
    requires Newest(s, id, stamp) && HasAt(s, a, id, stamp)
    ensures Knows(Final(s, steps), a, id) && HeldCore(Final(s, steps), a, id) == HeldCore(s, a, id)
  {
    ConflictIsPermanent(s, steps, a, id);
  }

  /** After a faithful exchange each node holds what some holder held. */
  lemma EndsWithHolders(s: State, steps: seq<Step>, b: NodeId, id: JobId, stamp: nat) returns (a: NodeId)
    requires SoundState(s) && AllCovered(s) && Runs(s, steps) && AllQuiet(steps) && FaithfulExchange(s, steps)
    requires b in s.nodes && Newest(s, id, stamp)
    ensures HasAt(s, a, id, stamp)
    ensures Knows(Final(s, steps), b, id) && HeldCore(Final(s, steps), b, id) == HeldCore(s, a, id)
  {
    if HasAt(s, b, id, stamp) {
      a := b;
      HolderKeeps(s, steps, b, id, stamp);
    } else {
      assert HearsHolder(s, steps, b, id, stamp);
      a :| HasAt(s, a, id, stamp) && FirstHears(s, steps, b, id, stamp, HeldCore(s, a, id));
      FirstHeardIsKept(s, steps, b, id, stamp, HeldCore(s, a, id));
    }
  }

  lemma FaithfulShares(s: State, steps: seq<Step>, a: NodeId, b: NodeId)
    requires SoundState(s) && AllCovered(s) && Runs(s, steps) && AllQuiet(steps)
    requires FaithfulExchange(s, steps) && HoldersAgree(s) && a in s.nodes && b in s.nodes
    ensures SharesWith(Final(s, steps), a, b)
  {
    forall id | Knows(Final(s, steps), a, id)
      ensures Knows(Final(s, steps), b, id) && HeldCore(Final(s, steps), a, id) == HeldCore(Final(s, steps), b, id)
    {
      var c := Origin(s, steps, a, id);
      var stamp := NewestExists(s, id, c);
      var x := EndsWithHolders(s, steps, a, id, stamp);
      var y := EndsWithHolders(s, steps, b, id, stamp);
    }
  }

  lemma SharingMeansAgreement(s: State, steps: seq<Step>)
    requires SoundState(s) && AllCovered(s) && Runs(s, steps) && AllQuiet(steps) && AllShare(Final(s, steps))
    ensures HoldersAgree(s)
  {
    QuietNodes(s, steps);
    forall a, b, id, stamp | HasAt(s, a, id, stamp) && HasAt(s, b, id, stamp) && Newest(s, id, stamp)
      ensures Core(RecordOf(s, a, id)) == Core(RecordOf(s, b, id))
    {
      assert SharesWith(Final(s, steps), a, b);
      AgreementNeedsNoConflict(s, steps, a, b, id);
    }
  }

  lemma SharingMeansFaithful(s: State, steps: seq<Step>)
    requires SoundState(s) && AllCovered(s) && Runs(s, steps) && AllQuiet(steps) && AllShare(Final(s, steps))
    ensures FaithfulExchange(s, steps)
  {
    SharingMeansExchange(s, steps);
    QuietNodes(s, steps);
    forall b, id, stamp | b in s.nodes && Newest(s, id, stamp)
      ensures HasAt(s, b, id, stamp) || HearsHolder(s, steps, b, id, stamp)
    {
      if !HasAt(s, b, id, stamp) {
        var a :| HasAt(s, a, id, stamp);
        HolderKeeps(s, steps, a, id, stamp);
        var core := SomethingHeardFirst(s, steps, b, id, stamp);
        FirstHeardIsKept(s, steps, b, id, stamp, core);
        assert SharesWith(Final(s, steps), a, b);
      }
    }
  }

  /** A gossip run ends with all nodes sharing all jobs exactly when it is a faithful
      exchange and the holders of every newest stamp agreed to begin with. */
  lemma AgreementIff(s: State, steps: seq<Step>)
    requires SoundState(s) && AllCovered(s) && Runs(s, steps) && AllQuiet(steps)
    ensures AllShare(Final(s, steps)) <==> FaithfulExchange(s, steps) && HoldersAgree(s)
  {
    QuietNodes(s, steps);
    if AllShare(Final(s, steps)) {
      SharingMeansFaithful(s, steps);
      SharingMeansAgreement(s, steps);
    }
    if FaithfulExchange(s, steps) && HoldersAgree(s) {
      forall a, b | a in s.nodes && b in s.nodes
        ensures SharesWith(Final(s, steps), a, b)
      {
        FaithfulShares(s, steps, a, b);
      }
    }
  }

  /** Where nothing under way differs from what the holders hold, any full exchange will do. */
  lemma MatchingCarriersShare(s: State, steps: seq<Step>)
    requires SoundState(s) && AllCovered(s) && Runs(s, steps) && AllQuiet(steps)
    requires CarriersMatch(s) && HoldersAgree(s)
    ensures AllShare(Final(s, steps)) <==> FullExchange(s, steps)
  {
    QuietNodes(s, steps);
    AgreeingHolders(s);
    if AllShare(Final(s, steps)) {
      SharingMeansExchange(s, steps);
    }
    if FullExchange(s, steps) {
      forall a, b | a in s.nodes && b in s.nodes
        ensures SharesWith(Final(s, steps), a, b)
      {
        OneSideShares(s, steps, a, b);
      }
    }
  }
}
