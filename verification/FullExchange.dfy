/** Exactly when gossip can bring a cluster together, and what it costs: buried
    jobs do not spread, and logs do not travel. */
module FullExchanges {
  import opened Wrappers
  import opened Text
  import opened Jobs
  import opened JobStore
  import opened Listing
  import opened Cluster
  import opened Convergence
  import opened GossipRounds

  // ---------- joining runs ----------

  lemma {:induction false} HearsInJoin(s: State, p: seq<Step>, q: seq<Step>, b: NodeId, id: JobId, stamp: nat)
    requires Runs(s, p) && Runs(Final(s, p), q) && Runs(s, p + q)
    requires EverHears(s, p, b, id, stamp) || EverHears(Final(s, p), q, b, id, stamp)
    ensures EverHears(s, p + q, b, id, stamp)
    decreases |p|
  {
    if p == [] {
      assert p + q == q;
    } else {
      assert (p + q)[1..] == p[1..] + q;
      if !Hears(s, p[0], b, id, stamp) {
        RunsJoin(Exec(s, p[0]), p[1..], q);
        HearsInJoin(Exec(s, p[0]), p[1..], q, b, id, stamp);
      }
    }
  }

  lemma {:induction false} QuietNetGrows(s: State, steps: seq<Step>)
    requires Runs(s, steps) && AllQuiet(steps)
    ensures s.net <= Final(s, steps).net && Final(s, steps).nodes.Keys == s.nodes.Keys
    decreases |steps|
  {
    if steps != [] {
      QuietNetGrows(Exec(s, steps[0]), steps[1..]);
    }
  }

  // ---------- which jobs can spread ----------

  ghost predicate AllHave(s: State, id: JobId, stamp: nat) {
    forall b :: b in s.nodes ==> HasAt(s, b, id, stamp)
  }

  ghost predicate Carries(jobs: seq<JobInstance>, id: JobId, stamp: nat) {
    exists j :: j in jobs && j.id == id && j.updatedAt == stamp
  }

  ghost predicate Carried(s: State, id: JobId, stamp: nat) {
    exists jobs :: SyncJobs(jobs) in s.net && Carries(jobs, id, stamp)
  }

  /** The holder's snapshots leave the job out, whatever they carry. */
  ghost predicate Buried(s: State, a: NodeId, id: JobId)
    requires Knows(s, a, id)
  {
    |FresherIds(s.nodes[a].mem.jobs, id)| >= REQUESTED_LIMIT
  }

  ghost predicate CanBeSent(s: State, id: JobId, stamp: nat) {
    exists a :: HasAt(s, a, id, stamp) && !Buried(s, a, id)
  }

  /** A job can spread if all have it already, if a message has it, or if some
      holder has fewer than 32 fresher jobs. */
  ghost predicate CanSpread(s: State, id: JobId, stamp: nat) {
    AllHave(s, id, stamp) || Carried(s, id, stamp) || CanBeSent(s, id, stamp)
  }

  ghost predicate AllCanSpread(s: State) {
    forall id, stamp :: Newest(s, id, stamp) ==> CanSpread(s, id, stamp)
  }

  ghost predicate CountersSaved(s: State) {
    forall a :: a in s.nodes ==> CounterSaved(s.nodes[a])
  }

  // ---------- publishing ----------

  /** A job and its newest stamp. */
  type Version = (JobId, nat)

  type Snapshots = map<Version, seq<JobInstance>>

  /** The version is everywhere already, or its message is under way. */
  ghost predicate Ready(s: State, net: set<Message>, v: Version, msgs: Snapshots) {
    AllHave(s, v.0, v.1) || (v in msgs && SyncJobs(msgs[v]) in net && Carries(msgs[v], v.0, v.1))
  }

  ghost predicate AllReady(s: State, net: set<Message>, todo: set<Version>, msgs: Snapshots) {
    forall v :: v in todo ==> Ready(s, net, v, msgs)
  }

  lemma SnapshotRecord(jobs: seq<JobInstance>, m: map<JobId, JobInstance>, limit: nat, clear: bool, id: JobId)
    requires IsSnapshot(jobs, m, limit, clear) && id in m && id in IdsOf(jobs)
    ensures Carries(jobs, id, m[id].updatedAt)
  {
    var i :| 0 <= i < |jobs| && jobs[i].id == id;
    assert StripAll(m, clear)[id] == jobs[i];
    assert jobs[i] in jobs;
  }

  /** A holder that is not buried publishes a snapshot with the job in it. */
  lemma SendJob(s: State, a: NodeId, id: JobId) returns (steps: seq<Step>, jobs: seq<JobInstance>)
    requires SoundState(s) && Knows(s, a, id) && CounterSaved(s.nodes[a]) && !Buried(s, a, id)
    ensures Runs(s, steps) && AllQuiet(steps) && Carries(jobs, id, Stamp(s, a, id))
    ensures Final(s, steps) == s.(net := s.net + {SyncJobs(jobs)})
  {
    var m := s.nodes[a].mem.jobs;
    assert SoundNode(s.nodes[a], s.clock);
    jobs := SnapshotWith(m, REQUESTED_LIMIT, false, id);
    SnapshotRecord(jobs, m, REQUESTED_LIMIT, false, id);
    RunStep(s, Gossip(a, jobs, false), []);
    steps := [Gossip(a, jobs, false)] + [];
  }

  /** `t` is `s` with more messages under way. */
  ghost predicate MoreSent(s: State, t: State) {
    t == s.(net := t.net) && s.net <= t.net
  }

  /** From `t`, which is `s` with more messages, at most one step makes a version ready. */
  lemma MakeReady(s: State, t: State, v: Version) returns (steps: seq<Step>, jobs: seq<JobInstance>)
    requires SoundState(t) && CountersSaved(s) && CanSpread(s, v.0, v.1) && MoreSent(s, t)
    ensures Runs(t, steps) && AllQuiet(steps) && MoreSent(t, Final(t, steps))
    ensures Ready(s, Final(t, steps).net, v, map[v := jobs])
  {
    steps, jobs := [], [];
    if AllHave(s, v.0, v.1) {
    } else if Carried(s, v.0, v.1) {
      jobs :| SyncJobs(jobs) in s.net && Carries(jobs, v.0, v.1);
    } else {
      var a :| HasAt(s, a, v.0, v.1) && !Buried(s, a, v.0);
      assert CounterSaved(s.nodes[a]);
      steps, jobs := SendJob(t, a, v.0);
    }
  }

  lemma ReadyLater(s: State, net: set<Message>, later: set<Message>, todo: set<Version>, msgs: Snapshots,
                   v: Version, jobs: seq<JobInstance>)
    requires AllReady(s, later, todo - {v}, msgs) && Ready(s, net, v, map[v := jobs]) && net <= later
    ensures AllReady(s, later, todo, msgs[v := jobs])
  {
    forall w | w in todo
      ensures Ready(s, later, w, msgs[v := jobs])
    {
      assert w != v ==> Ready(s, later, w, msgs);
    }
  }

  lemma QuietJoin(s: State, p: seq<Step>, q: seq<Step>)
    requires Runs(s, p) && Runs(Final(s, p), q) && AllQuiet(p) && AllQuiet(q)
    ensures Runs(s, p + q) && AllQuiet(p + q) && Final(s, p + q) == Final(Final(s, p), q)
  {
    RunsJoin(s, p, q);
  }

  lemma {:induction false} PublishAll(s: State, t: State, todo: set<Version>) returns (steps: seq<Step>, msgs: Snapshots)
    requires SoundState(t) && CountersSaved(s) && MoreSent(s, t)
    requires forall v :: v in todo ==> CanSpread(s, v.0, v.1)
    ensures Runs(t, steps) && AllQuiet(steps) && MoreSent(t, Final(t, steps))
    ensures AllReady(s, Final(t, steps).net, todo, msgs)
    decreases |todo|
  {
    if todo == {} {
      steps, msgs := [], map[];
    } else {
      var v :| v in todo;
      var first, jobs := MakeReady(s, t, v);
      var u := Final(t, first);
      RunSound(t, first);
      var rest, others := PublishAll(s, u, todo - {v});
      QuietJoin(t, first, rest);
      steps, msgs := first + rest, others[v := jobs];
      ReadyLater(s, u.net, Final(u, rest).net, todo, others, v, jobs);
    }
  }

  // ---------- listening ----------

  /** One node takes one published snapshot in. */
  lemma TakeIn(s: State, b: NodeId, jobs: seq<JobInstance>) returns (steps: seq<Step>)
    requires b in s.nodes && SyncJobs(jobs) in s.net
    ensures Runs(s, steps) && AllQuiet(steps)
    ensures forall j :: j in jobs ==> EverHears(s, steps, b, j.id, j.updatedAt)
  {
    var receive := ReceiveSync(b, SyncJobs(jobs));
    var t := Exec(s, receive);
    var k := |s.nodes[b].tasks|;
    assert t.nodes[b].tasks[k] == jobs;
    WorkOffHears(t, b, k, |jobs|);
    HeardLater(s, receive, WorkOff(b, k, |jobs|), b, jobs);
    steps := [receive] + WorkOff(b, k, |jobs|);
  }

  ghost predicate AllHeard(s: State, steps: seq<Step>, b: NodeId, jobs: seq<JobInstance>)
    requires Runs(s, steps)
  {
    forall j :: j in jobs ==> EverHears(s, steps, b, j.id, j.updatedAt)
  }

  lemma HeardInJoin(s: State, p: seq<Step>, q: seq<Step>, b: NodeId, jobs: seq<JobInstance>)
    requires Runs(s, p) && Runs(Final(s, p), q)
    requires AllHeard(s, p, b, jobs) || AllHeard(Final(s, p), q, b, jobs)
    ensures Runs(s, p + q) && AllHeard(s, p + q, b, jobs)
  {
    RunsJoin(s, p, q);
    forall j | j in jobs
      ensures EverHears(s, p + q, b, j.id, j.updatedAt)
    {
      HearsInJoin(s, p, q, b, j.id, j.updatedAt);
    }
  }

  /** Each pair's message is under way, and its receiver exists. */
  ghost predicate Deliverable(s: State, msgs: Snapshots, pairs: set<(Version, NodeId)>) {
    forall v, b :: (v, b) in pairs ==> v in msgs && SyncJobs(msgs[v]) in s.net && b in s.nodes
  }

  ghost predicate AllDelivered(s: State, steps: seq<Step>, msgs: Snapshots, pairs: set<(Version, NodeId)>)
    requires Runs(s, steps)
  {
    forall v, b :: (v, b) in pairs ==> v in msgs && AllHeard(s, steps, b, msgs[v])
  }

  lemma {:induction false} ListenAll(s: State, msgs: Snapshots, todo: set<(Version, NodeId)>) returns (steps: seq<Step>)
    requires Deliverable(s, msgs, todo)
    ensures Runs(s, steps) && AllQuiet(steps) && AllDelivered(s, steps, msgs, todo)
    decreases |todo|
  {
    if todo == {} {
      steps := [];
    } else {
      var pair :| pair in todo;
      var (v, b) := pair;
      var head := TakeIn(s, b, msgs[v]);
      assert AllHeard(s, head, b, msgs[v]);
      var t := Final(s, head);
      QuietNetGrows(s, head);
      var rest := ListenAll(t, msgs, todo - {pair});
      QuietJoin(s, head, rest);
      steps := head + rest;
      forall w, d | (w, d) in todo
        ensures w in msgs && AllHeard(s, steps, d, msgs[w])
      {
        HeardInJoin(s, head, rest, d, msgs[w]);
      }
    }
  }

  // ---------- exactly when a full exchange is possible ----------

  ghost function Versions(s: State): set<Version> {
    set a, id | a in s.nodes && id in s.nodes[a].mem.jobs :: (id, s.nodes[a].mem.jobs[id].updatedAt)
  }

  ghost function NewestVersions(s: State): set<Version> {
    set v | v in Versions(s) && Newest(s, v.0, v.1)
  }

  lemma NewestIsVersion(s: State, id: JobId, stamp: nat)
    requires Newest(s, id, stamp)
    ensures (id, stamp) in NewestVersions(s)
  {
    var a :| HasAt(s, a, id, stamp);
    assert a in s.nodes && id in s.nodes[a].mem.jobs;
    assert (id, stamp) in Versions(s);
  }

  /** The versions still to be heard, with the nodes that lack them. */
  ghost function Lacking(s: State, all: set<Version>): set<(Version, NodeId)> {
    set v, b | v in all && b in s.nodes && !HasAt(s, b, v.0, v.1) :: (v, b)
  }

  lemma ReadyDeliverable(s: State, t: State, all: set<Version>, msgs: Snapshots)
    requires MoreSent(s, t) && AllReady(s, t.net, all, msgs)
    ensures Deliverable(t, msgs, Lacking(s, all))
  {
    forall v, b | (v, b) in Lacking(s, all)
      ensures v in msgs && SyncJobs(msgs[v]) in t.net && b in t.nodes
    {
      assert Ready(s, t.net, v, msgs);
    }
  }

  /** One version, one node that lacked it. */
  lemma HeardVersion(s: State, publish: seq<Step>, listen: seq<Step>, v: Version, b: NodeId, jobs: seq<JobInstance>)
    requires Runs(s, publish) && Runs(Final(s, publish), listen)
    requires AllHeard(Final(s, publish), listen, b, jobs) && Carries(jobs, v.0, v.1)
    ensures Runs(s, publish + listen) && EverHears(s, publish + listen, b, v.0, v.1)
  {
    HeardInJoin(s, publish, listen, b, jobs);
    var j :| j in jobs && j.id == v.0 && j.updatedAt == v.1;
    assert EverHears(s, publish + listen, b, j.id, j.updatedAt);
  }

  lemma ExchangeDone(s: State, publish: seq<Step>, listen: seq<Step>, msgs: Snapshots)
    requires Runs(s, publish) && Runs(Final(s, publish), listen)
    requires AllReady(s, Final(s, publish).net, NewestVersions(s), msgs)
    requires AllDelivered(Final(s, publish), listen, msgs, Lacking(s, NewestVersions(s)))
    ensures Runs(s, publish + listen) && FullExchange(s, publish + listen)
  {
    RunsJoin(s, publish, listen);
    forall b, id, stamp: nat | b in s.nodes && Newest(s, id, stamp)
      ensures HasAt(s, b, id, stamp) || EverHears(s, publish + listen, b, id, stamp)
    {
      NewestIsVersion(s, id, stamp);
      assert Ready(s, Final(s, publish).net, (id, stamp), msgs);
      if !HasAt(s, b, id, stamp) {
        assert ((id, stamp), b) in Lacking(s, NewestVersions(s));
        HeardVersion(s, publish, listen, (id, stamp), b, msgs[(id, stamp)]);
      }
    }
  }

  /** If every job can spread, some gossip run is a full exchange. */
  lemma FullExchangePossible(s: State) returns (steps: seq<Step>)
    requires SoundState(s) && CountersSaved(s) && AllCanSpread(s)
    ensures Runs(s, steps) && AllQuiet(steps) && FullExchange(s, steps)
  {
    var publish, msgs := PublishAll(s, s, NewestVersions(s));
    var t := Final(s, publish);
    ReadyDeliverable(s, t, NewestVersions(s), msgs);
    var listen := ListenAll(t, msgs, Lacking(s, NewestVersions(s)));
    ExchangeDone(s, publish, listen, msgs);
    QuietJoin(s, publish, listen);
    steps := publish + listen;
  }

  // ---------- jobs that cannot spread ----------

  /** Every holder of the version is buried, and no message or task has it. */
  ghost predicate Stuck(s: State, id: JobId, stamp: nat) {
    && (forall a :: Knows(s, a, id) ==> Stamp(s, a, id) <= stamp)
    && (forall a :: HasAt(s, a, id, stamp) ==> Buried(s, a, id))
    && (forall j :: InFlight(s, j) && j.id == id ==> j.updatedAt < stamp)
  }

  lemma FresherGrows(m: map<JobId, JobInstance>, j: JobInstance, id: JobId)
    requires id in m && j.id != id
    ensures id in MergeOne(m, j) && |FresherIds(m, id)| <= |FresherIds(MergeOne(m, j), id)|
  {
    var m' := MergeOne(m, j);
    assert FresherIds(m, id) <= FresherIds(m', id);
    SubsetSizes(FresherIds(m, id), FresherIds(m', id));
  }

  lemma StuckStaysOut(s: State, step: Step, id: JobId, stamp: nat, j: JobInstance)
    requires Enabled(s, step) && Quiet(step) && Stuck(s, id, stamp) && InFlight(Exec(s, step), j) && j.id == id
    ensures j.updatedAt < stamp
  {
    NewInFlight(s, step, j);
    if !InFlight(s, j) {
      var m := s.nodes[step.node].mem.jobs;
      var limit := if step.periodic then PERIODIC_LIMIT else REQUESTED_LIMIT;
      var k :| 0 <= k < |step.jobs| && step.jobs[k] == j;
      assert StripAll(m, step.periodic)[id] == j && id in IdsOf(step.jobs);
      CarriedIsNotBuried(step.jobs, m, limit, step.periodic, id);
      assert !HasAt(s, step.node, id, stamp);
    }
  }

  lemma StuckHolder(s: State, step: Step, id: JobId, stamp: nat, a: NodeId)
    requires Enabled(s, step) && Quiet(step) && Stuck(s, id, stamp) && Knows(Exec(s, step), a, id)
    ensures Stamp(Exec(s, step), a, id) <= stamp
    ensures HasAt(Exec(s, step), a, id, stamp) ==> HasAt(s, a, id, stamp) && Buried(Exec(s, step), a, id)
  {
    if step.Work? && step.node == a && s.nodes[a].tasks[step.task] != [] {
      var j := s.nodes[a].tasks[step.task][0];
      assert j in s.nodes[a].tasks[step.task];
      assert InFlight(s, j);
      if j.id != id {
        FresherGrows(s.nodes[a].mem.jobs, j, id);
      }
      assert HasAt(s, a, id, stamp) ==> Buried(s, a, id);
    } else {
      assert HasAt(s, a, id, stamp) ==> Buried(s, a, id);
    }
  }

  lemma StepStuck(s: State, step: Step, id: JobId, stamp: nat)
    requires Enabled(s, step) && Quiet(step) && Stuck(s, id, stamp)
    ensures Stuck(Exec(s, step), id, stamp)
  {
    var t := Exec(s, step);
    forall a | Knows(t, a, id)
      ensures Stamp(t, a, id) <= stamp && (HasAt(t, a, id, stamp) ==> Buried(t, a, id))
    {
      StuckHolder(s, step, id, stamp, a);
    }
    forall j | InFlight(t, j) && j.id == id
      ensures j.updatedAt < stamp
    {
      StuckStaysOut(s, step, id, stamp, j);
    }
  }

  /** Nobody gets a stuck version, over any gossip run. */
  lemma {:induction false} StuckForever(s: State, steps: seq<Step>, id: JobId, stamp: nat, b: NodeId)
    requires Runs(s, steps) && AllQuiet(steps) && Stuck(s, id, stamp)
    ensures HasAt(Final(s, steps), b, id, stamp) ==> HasAt(s, b, id, stamp)
    decreases |steps|
  {
    if steps != [] {
      var t := Exec(s, steps[0]);
      StepStuck(s, steps[0], id, stamp);
      StuckForever(t, steps[1..], id, stamp, b);
      if HasAt(t, b, id, stamp) {
        StuckHolder(s, steps[0], id, stamp, b);
      }
    }
  }

  /** A job known to one node only, not under way, and with at least 32 fresher
      jobs beside it, never becomes known to another node by gossip. */
  lemma BuriedNeverLeaves(s: State, steps: seq<Step>, a: NodeId, id: JobId, b: NodeId)
    requires SoundState(s) && Runs(s, steps) && AllQuiet(steps) && Knows(s, a, id) && Buried(s, a, id)
    requires forall c :: Knows(s, c, id) ==> c == a
    requires forall j :: InFlight(s, j) ==> j.id != id
    ensures Knows(Final(s, steps), b, id) ==> b == a
  {
    if Knows(Final(s, steps), b, id) {
      var i := Ancestor(s, steps, b, id);
      var c :| Held(s, c, i);
      assert Knows(s, c, id);
      StuckForever(s, steps, id, Stamp(s, a, id), b);
    }
  }

  lemma SettledCarries(s: State, j: JobInstance)
    requires Settled(s) && InFlight(s, j)
    ensures Carried(s, j.id, j.updatedAt)
  {
    var m :| m in s.net && m.SyncJobs? && j in m.jobs;
    assert SyncJobs(m.jobs) in s.net && Carries(m.jobs, j.id, j.updatedAt);
  }

  lemma CannotSpread(s: State, id: JobId, stamp: nat)
    requires SoundState(s) && AllCovered(s) && Settled(s) && Newest(s, id, stamp) && !CanSpread(s, id, stamp)
    ensures Stuck(s, id, stamp)
  {
    forall j | InFlight(s, j) && j.id == id
      ensures j.updatedAt < stamp
    {
      SettledCarries(s, j);
      assert Covered(s, j);
      assert j.updatedAt != stamp;
    }
    forall a | HasAt(s, a, id, stamp)
      ensures Buried(s, a, id)
    {
      assert Buried(s, a, id) || CanBeSent(s, id, stamp);
    }
  }

  lemma FullExchangeNeeds(s: State, steps: seq<Step>)
    requires SoundState(s) && AllCovered(s) && Settled(s) && Runs(s, steps) && AllQuiet(steps) && FullExchange(s, steps)
    ensures AllCanSpread(s)
  {
    ConvergedIffExchange(s, steps);
    forall id, stamp: nat | Newest(s, id, stamp)
      ensures CanSpread(s, id, stamp)
    {
      if !CanSpread(s, id, stamp) {
        CannotSpread(s, id, stamp);
        var b :| b in s.nodes && !HasAt(s, b, id, stamp);
        StuckForever(s, steps, id, stamp, b);
      }
    }
  }

  lemma SettledSaved(init: State, before: seq<Step>)
    requires Initial(init) && Runs(init, before) && Settled(Final(init, before))
    ensures CountersSaved(Final(init, before))
  {
    RunDurable(init, before);
    var s := Final(init, before);
    forall a | a in s.nodes
      ensures CounterSaved(s.nodes[a])
    {
      assert Durable(s.nodes[a]);
    }
  }

  /** Some gossip run brings a version that can spread to every node. */
  lemma SpreadVersion(s: State, v: Version) returns (steps: seq<Step>)
    requires SoundState(s) && AllCovered(s) && CountersSaved(s) && Newest(s, v.0, v.1) && CanSpread(s, v.0, v.1)
    ensures Runs(s, steps) && AllQuiet(steps) && AllHave(Final(s, steps), v.0, v.1)
  {
    var publish, jobs := MakeReady(s, s, v);
    var t, msgs := Final(s, publish), map[v := jobs];
    ReadyDeliverable(s, t, {v}, msgs);
    var listen := ListenAll(t, msgs, Lacking(s, {v}));
    QuietJoin(s, publish, listen);
    steps := publish + listen;
    QuietNodes(s, steps);
    forall b | b in s.nodes
      ensures HasAt(Final(s, steps), b, v.0, v.1)
    {
      if !HasAt(s, b, v.0, v.1) {
        assert (v, b) in Lacking(s, {v});
        HeardVersion(s, publish, listen, v, b, jobs);
      }
      ExchangeConverges(s, steps, b, v.0, v.1);
    }
  }

  lemma SpreadMeansCan(s: State, steps: seq<Step>, id: JobId, stamp: nat)
    requires SoundState(s) && AllCovered(s) && Settled(s) && Newest(s, id, stamp)
    requires Runs(s, steps) && AllQuiet(steps) && AllHave(Final(s, steps), id, stamp)
    ensures CanSpread(s, id, stamp)
  {
    QuietNodes(s, steps);
    if !CanSpread(s, id, stamp) {
      CannotSpread(s, id, stamp);
      var b :| b in s.nodes && !HasAt(s, b, id, stamp);
      StuckForever(s, steps, id, stamp, b);
    }
  }

  lemma HoldersStillAgree(s: State, u: State)
    requires u.nodes == s.nodes && HoldersAgree(s)
    ensures HoldersAgree(u)
  {
    forall a, b, id, stamp | HasAt(u, a, id, stamp) && HasAt(u, b, id, stamp) && Newest(u, id, stamp)
      ensures Core(RecordOf(u, a, id)) == Core(RecordOf(u, b, id))
    {
      assert HasAt(s, a, id, stamp) && HasAt(s, b, id, stamp);
      assert forall c :: Knows(s, c, id) ==> Knows(u, c, id);
      assert Newest(s, id, stamp);
    }
  }

  lemma SameSharing(u: State, t: State)
    requires u.nodes == t.nodes && AllShare(u)
    ensures AllShare(t)
  {
    forall a, b | a in t.nodes && b in t.nodes
      ensures SharesWith(t, a, b)
    {
      assert SharesWith(u, a, b);
      assert forall id :: Knows(t, a, id) ==> Knows(u, a, id);
    }
  }

  /** From a state reached without a crash in which no operation is in progress,
      gossip can bring every job to every node exactly when every job can spread. */
  lemma ExchangePossibleIff(init: State, before: seq<Step>)
    requires Initial(init) && Runs(init, before) && NoRestart(before) && Settled(Final(init, before))
    ensures var s := Final(init, before);
            (exists steps :: Runs(s, steps) && AllQuiet(steps) && FullExchange(s, steps)) <==> AllCanSpread(s)
  {
    var s := Final(init, before);
    ReachableCovered(init, before);
    SettledSaved(init, before);
    if AllCanSpread(s) {
      var steps := FullExchangePossible(s);
    }
    forall steps | Runs(s, steps) && AllQuiet(steps) && FullExchange(s, steps)
      ensures AllCanSpread(s)
    {
      FullExchangeNeeds(s, steps);
    }
  }

  /** One version reaches every node by some gossip run exactly when it can spread. */
  lemma VersionSpreadsIff(init: State, before: seq<Step>, id: JobId, stamp: nat)
    requires Initial(init) && Runs(init, before) && NoRestart(before) && Settled(Final(init, before))
    requires Newest(Final(init, before), id, stamp)
    ensures var s := Final(init, before);
            (exists steps :: Runs(s, steps) && AllQuiet(steps) && AllHave(Final(s, steps), id, stamp))
            <==> CanSpread(s, id, stamp)
  {
    var s := Final(init, before);
    ReachableCovered(init, before);
    SettledSaved(init, before);
    if CanSpread(s, id, stamp) {
      var steps := SpreadVersion(s, (id, stamp));
    }
    forall steps | Runs(s, steps) && AllQuiet(steps) && AllHave(Final(s, steps), id, stamp)
      ensures CanSpread(s, id, stamp)
    {
      SpreadMeansCan(s, steps, id, stamp);
    }
  }

  /** What gossip can do with some messages it can do with more. */
  lemma {:induction false} MoreMessages(s: State, t: State, steps: seq<Step>)
    requires MoreSent(s, t) && Runs(s, steps) && AllQuiet(steps)
    ensures Runs(t, steps) && Final(t, steps).nodes == Final(s, steps).nodes
    decreases |steps|
  {
    if steps != [] {
      MoreMessages(Exec(s, steps[0]), Exec(t, steps[0]), steps[1..]);
    }
  }

  lemma FewerMessages(s: State, net: set<Message>)
    requires SoundState(s) && AllCovered(s) && net <= s.net
    ensures var u := s.(net := net); SoundState(u) && AllCovered(u) && MoreSent(u, s)
  {
    var u := s.(net := net);
    forall a | a in u.nodes
      ensures SoundNode(u.nodes[a], u.clock)
    {
      assert SoundNode(s.nodes[a], s.clock);
    }
    forall j | InFlight(u, j)
      ensures Covered(u, j)
    {
      assert InFlight(s, j);
      assert Covered(s, j);
      var a :| Knows(s, a, j.id) && j.updatedAt <= Stamp(s, a, j.id);
      assert Knows(u, a, j.id);
    }
  }

  /** Full agreement needs that every newest version can spread and that its holders
      agree. */
  lemma AgreementNeeds(init: State, before: seq<Step>, steps: seq<Step>)
    requires Initial(init) && Runs(init, before) && NoRestart(before) && Settled(Final(init, before))
    requires var s := Final(init, before); Runs(s, steps) && AllQuiet(steps) && AllShare(Final(s, steps))
    ensures var s := Final(init, before); AllCanSpread(s) && HoldersAgree(s)
  {
    var s := Final(init, before);
    ReachableCovered(init, before);
    SharingMeansAgreement(s, steps);
    SharingMeansExchange(s, steps);
    FullExchangeNeeds(s, steps);
  }

  /** And it is possible if holders agree and every newest version can spread with
      the help of messages `net` that match what the holders hold; the other messages
      under way need not be taken in. With no messages: if each newest version is
      everywhere already or has a holder with fewer than 32 fresher jobs. */
  lemma AgreementPossible(init: State, before: seq<Step>, net: set<Message>) returns (steps: seq<Step>)
    requires Initial(init) && Runs(init, before) && NoRestart(before) && Settled(Final(init, before))
    requires var s := Final(init, before);
             && net <= s.net && HoldersAgree(s)
             && CarriersMatch(s.(net := net)) && AllCanSpread(s.(net := net))
    ensures var s := Final(init, before);
            Runs(s, steps) && AllQuiet(steps) && AllShare(Final(s, steps))
  {
    var s := Final(init, before);
    var u := s.(net := net);
    ReachableCovered(init, before);
    SettledSaved(init, before);
    FewerMessages(s, net);
    HoldersStillAgree(s, u);
    steps := FullExchangePossible(u);
    MatchingCarriersShare(u, steps);
    MoreMessages(u, s, steps);
    SameSharing(Final(u, steps), Final(s, steps));
  }

  /** So where all messages under way match, the condition is exact. */
  lemma AgreementPossibleIff(init: State, before: seq<Step>)
    requires Initial(init) && Runs(init, before) && NoRestart(before) && Settled(Final(init, before))
    requires CarriersMatch(Final(init, before))
    ensures var s := Final(init, before);
            (exists steps :: Runs(s, steps) && AllQuiet(steps) && AllShare(Final(s, steps)))
            <==> AllCanSpread(s) && HoldersAgree(s)
  {
    var s := Final(init, before);
    if AllCanSpread(s) && HoldersAgree(s) {
      assert s.(net := s.net) == s;
      var steps := AgreementPossible(init, before, s.net);
    }
    forall steps | Runs(s, steps) && AllQuiet(steps) && AllShare(Final(s, steps))
      ensures AllCanSpread(s) && HoldersAgree(s)
    {
      AgreementNeeds(init, before, steps);
    }
  }

  /** Stores of at most 32 jobs bury nothing. */
  lemma SmallStoresSpread(s: State)
    requires forall a :: a in s.nodes ==> |s.nodes[a].mem.jobs| <= REQUESTED_LIMIT
    ensures AllCanSpread(s)
  {
    forall id, stamp: nat | Newest(s, id, stamp)
      ensures CanSpread(s, id, stamp)
    {
      var a :| HasAt(s, a, id, stamp);
      var m := s.nodes[a].mem.jobs;
      SubsetSizes(FresherIds(m, id) + {id}, m.Keys);
      assert |m.Keys| == |m|;
      assert !Buried(s, a, id);
    }
  }

  // ---------- a buried job ----------

  ghost predicate Numbered(m: Store, n: nat) {
    && m.nextId == n + 1
    && (forall id :: id in m.jobs ==> exists k: nat :: 1 <= k <= n && id == JobIdOf("a", k))
    && (forall k: nat :: 1 <= k <= n ==> JobIdOf("a", k) in m.jobs && m.jobs[JobIdOf("a", k)].updatedAt == k)
  }

  /** One node has submitted `n` jobs, a second apart, and is done. */
  ghost predicate Submitted(s: State, n: nat) {
    && s.nodes.Keys == {"a", "b"} && s.net == {} && s.nodes["b"] == START.nodes["b"]
    && s.nodes["a"].tasks == [] && Numbered(s.nodes["a"].mem, n)
  }

  function SubmitAt(n: nat): Step {
    Act("a", Submit(SPEC, None, None), Reads(n, n, n, n, n))
  }

  lemma NextNumber(m: Store, n: nat)
    requires Numbered(m, n)
    ensures var id := JobIdOf("a", n + 1);
            && SubmittedId("a", m, Submit(SPEC, None, None)) == id && id !in m.jobs
            && Numbered(Apply("a", m, SubmitAt(n + 1).op, SubmitAt(n + 1).r), n + 1)
  {
    var id := JobIdOf("a", n + 1);
    forall k: nat | JobIdOf("a", k) == id
      ensures k == n + 1
    {
      JobIdInjective("a", k, "a", n + 1);
    }
    assert id !in m.jobs;
    var m' := Apply("a", m, SubmitAt(n + 1).op, SubmitAt(n + 1).r);
    assert m'.jobs.Keys == m.jobs.Keys + {id};
    assert m'.jobs[id].updatedAt == n + 1;
  }

  lemma SubmitOne(s: State, n: nat) returns (steps: seq<Step>)
    requires Submitted(s, n)
    ensures Runs(s, steps) && NoRestart(steps) && Submitted(Final(s, steps), n + 1)
  {
    var submit, save := SubmitAt(n + 1), Work("a", 0);
    NextNumber(s.nodes["a"].mem, n);
    var t := Exec(s, submit);
    assert t.nodes["a"].tasks == [[]];
    var u := Exec(t, save);
    assert u.nodes["a"].mem == t.nodes["a"].mem;
    RunStep(t, save, []);
    RunStep(s, submit, [save] + []);
    steps := [submit] + ([save] + []);
  }

  lemma {:induction false} SubmitMany(n: nat) returns (steps: seq<Step>)
    ensures Runs(START, steps) && NoRestart(steps) && Submitted(Final(START, steps), n)
  {
    if n == 0 {
      steps := [];
    } else {
      var front := SubmitMany(n - 1);
      var last := SubmitOne(Final(START, front), n - 1);
      RunsJoin(START, front, last);
      steps := front + last;
    }
  }

  ghost function IdsFrom(n: nat): set<JobId> {
    set k | 2 <= k <= n + 1 :: JobIdOf("a", k)
  }

  lemma {:induction false} IdsFromSize(n: nat)
    ensures |IdsFrom(n)| == n
  {
    if n == 0 {
      assert IdsFrom(0) == {};
    } else {
      IdsFromSize(n - 1);
      assert IdsFrom(n) == IdsFrom(n - 1) + {JobIdOf("a", n + 1)};
      forall k: nat | JobIdOf("a", k) == JobIdOf("a", n + 1)
        ensures k == n + 1
      {
        JobIdInjective("a", k, "a", n + 1);
      }
      assert JobIdOf("a", n + 1) !in IdsFrom(n - 1);
    }
  }

  lemma OldestIsBuried(s: State)
    requires Submitted(s, 33)
    ensures Knows(s, "a", JobIdOf("a", 1)) && Buried(s, "a", JobIdOf("a", 1))
  {
    var fresher := FresherIds(s.nodes["a"].mem.jobs, JobIdOf("a", 1));
    assert IdsFrom(32) <= fresher;
    IdsFromSize(32);
    SubsetSizes(IdsFrom(32), fresher);
  }

  lemma OldestStays(s: State, more: seq<Step>)
    requires SoundState(s) && Submitted(s, 33) && Runs(s, more) && AllQuiet(more)
    ensures !Knows(Final(s, more), "b", JobIdOf("a", 1))
  {
    OldestIsBuried(s);
    BuriedNeverLeaves(s, more, "a", JobIdOf("a", 1), "b");
  }

  /** Thirty-three submissions are enough: the oldest job never reaches the other
      node by gossip. */
  lemma BuryingArises() returns (steps: seq<Step>)
    ensures Initial(START) && Runs(START, steps) && NoRestart(steps)
    ensures var s := Final(START, steps);
            && Settled(s) && Knows(s, "a", JobIdOf("a", 1)) && "b" in s.nodes
            && forall more :: Runs(s, more) && AllQuiet(more) ==> !Knows(Final(s, more), "b", JobIdOf("a", 1))
  {
    steps := SubmitMany(33);
    var s := Final(START, steps);
    RunSound(START, steps);
    forall more | Runs(s, more) && AllQuiet(more)
      ensures !Knows(Final(s, more), "b", JobIdOf("a", 1))
    {
      OldestStays(s, more);
    }
  }

  // ---------- what does not travel ----------

  /** No record under way carries a log. */
  ghost predicate LogsStayHome(s: State) {
    forall j :: InFlight(s, j) ==> j.logs == []
  }

  lemma StepLogsStayHome(s: State, step: Step)
    requires Enabled(s, step) && LogsStayHome(s)
    ensures LogsStayHome(Exec(s, step))
  {
    forall j | InFlight(Exec(s, step), j)
      ensures j.logs == []
    {
      if Quiet(step) {
        NewInFlight(s, step, j);
        if !InFlight(s, j) {
          var k :| 0 <= k < |step.jobs| && step.jobs[k] == j;
          assert StripAll(s.nodes[step.node].mem.jobs, step.periodic)[j.id] == j;
        }
      } else {
        OtherStepsCarryNothing(s, step, j);
      }
    }
  }

  lemma {:induction false} RunLogsStayHome(s: State, steps: seq<Step>)
    requires Runs(s, steps) && LogsStayHome(s)
    ensures LogsStayHome(Final(s, steps))
    decreases |steps|
  {
    if steps != [] {
      StepLogsStayHome(s, steps[0]);
      RunLogsStayHome(Exec(s, steps[0]), steps[1..]);
    }
  }

  /** In every reachable state, merging a delivered record either leaves the local
      record and its log alone or replaces it by one without any log: a node keeps
      its log of a job exactly as long as no newer snapshot of the job arrives. */
  lemma NewerSnapshotErasesLog(init: State, steps: seq<Step>, a: NodeId, k: nat, id: JobId)
    requires Initial(init) && Runs(init, steps)
    requires var s := Final(init, steps);
             Enabled(s, Work(a, k)) && s.nodes[a].tasks[k] != [] && s.nodes[a].tasks[k][0].id == id && Knows(s, a, id)
    ensures var s := Final(init, steps);
            var arrived := s.nodes[a].tasks[k][0];
            var after := RecordOf(Exec(s, Work(a, k)), a, id);
            if arrived.updatedAt > Stamp(s, a, id) then after.logs == [] else after == RecordOf(s, a, id)
  {
    RunLogsStayHome(init, steps);
    var s := Final(init, steps);
    assert s.nodes[a].tasks[k][0] in s.nodes[a].tasks[k];
    assert InFlight(s, s.nodes[a].tasks[k][0]);
  }

  /** What merging a record of a snapshot makes of the local record's artifacts: a
      newer one replaces them by the sender's if the snapshot was requested, and by
      none if it was a periodic broadcast. */
  lemma NewerSnapshotReplacesArtifacts(sender: map<JobId, JobInstance>, limit: nat, periodic: bool,
                                       jobs: seq<JobInstance>, j: JobInstance, local: map<JobId, JobInstance>)
    requires IsSnapshot(jobs, sender, limit, periodic) && j in jobs && j.id in local
    ensures j.id in sender && j.updatedAt == sender[j.id].updatedAt
    ensures var after := MergeOne(local, j)[j.id];
            if sender[j.id].updatedAt <= local[j.id].updatedAt then after == local[j.id]
            else after.logs == [] && after.artifacts == if periodic then [] else sender[j.id].artifacts
  {
    var k :| 0 <= k < |jobs| && jobs[k] == j;
    assert StripAll(sender, periodic)[j.id] == j;
  }

  /** A submission delivered late resets the job to pending at the receiver; if
      nobody's clock is ahead, under a stamp no node exceeds, so that gossip spreads
      the reset to every node with an older stamp. */
  lemma LateSubmissionResets(s: State, b: NodeId, msg: Message, r: Reads)
    requires SoundState(s) && Enabled(s, ReceiveSubmit(b, msg, r))
    ensures var t := Exec(s, ReceiveSubmit(b, msg, r));
            && HasAt(t, b, msg.jobId, r.t3) && RecordOf(t, b, msg.jobId).status == Pending
            && (s.clock <= r.t0 ==> Newest(t, msg.jobId, r.t3))
  {
    var t := Exec(s, ReceiveSubmit(b, msg, r));
    assert HasAt(t, b, msg.jobId, r.t3);
    if s.clock <= r.t0 {
      forall a | Knows(t, a, msg.jobId)
        ensures Stamp(t, a, msg.jobId) <= r.t3
      {
        assert a != b ==> SoundNode(s.nodes[a], s.clock);
      }
    }
  }

  // ---------- all of this at real inputs ----------

  /** A node with one job gossips it to a node with nothing else to do. */
  lemma RelayOne(s: State, a: NodeId, b: NodeId, id: JobId, periodic: bool) returns (steps: seq<Step>)
    requires SoundState(s) && a in s.nodes && b in s.nodes && CounterSaved(s.nodes[a])
    requires s.nodes[a].mem.jobs.Keys == {id} && s.nodes[b].tasks == []
    ensures Runs(s, steps)
    ensures var t := Final(s, steps);
            && t.nodes == s.nodes[b := s.nodes[b].(tasks := [[Strip(s.nodes[a].mem.jobs[id], periodic)]])]
            && s.net <= t.net
  {
    var m := s.nodes[a].mem.jobs;
    assert SoundNode(s.nodes[a], s.clock);
    var limit := if periodic then PERIODIC_LIMIT else REQUESTED_LIMIT;
    var jobs := SnapshotExists(m, limit, periodic);
    OnlyRecord(jobs, m, limit, periodic, id);
    var send, receive := Gossip(a, jobs, periodic), ReceiveSync(b, SyncJobs(jobs));
    assert s.nodes[b].tasks + [jobs] == [jobs];
    RunStep(Exec(s, send), receive, []);
    RunStep(s, send, [receive] + []);
    steps := [send] + ([receive] + []);
  }

  lemma SoundFromStart(steps: seq<Step>)
    requires Runs(START, steps)
    ensures SoundState(Final(START, steps))
  {
    RunSound(START, steps);
  }

  const LATER := Reads(1, 1, 1, 1, 1)

  /** The job a node submitted is started by the node that received it. */
  const STARTED: seq<Step> := SHARE + [Act("b", Start("a-1"), LATER)]

  lemma StartedElsewhere() returns (s: State)
    ensures Runs(START, STARTED) && s == Final(START, STARTED) && SoundState(s)
    ensures s.nodes.Keys == {"a", "b"} && s.nodes["a"].tasks == []
    ensures s.nodes["b"].mem.jobs.Keys == {"a-1"} && CounterSaved(s.nodes["b"]) && HasAt(s, "b", "a-1", 1)
    ensures HasAt(s, "a", "a-1", 0) && RecordOf(s, "a", "a-1").logs != []
  {
    var shared := JobShared();
    OneStep(START, SHARE, Act("b", Start("a-1"), LATER));
    SoundFromStart(STARTED);
    s := Final(START, STARTED);
  }

  /** A log is lost: a node hears that the job it submitted was started elsewhere. */
  lemma LogErased() returns (steps: seq<Step>)
    ensures Initial(START) && Runs(START, steps)
    ensures var s := Final(START, steps);
            && Knows(s, "a", "a-1") && RecordOf(s, "a", "a-1").logs != []
            && Enabled(s, Work("a", 0)) && Knows(Exec(s, Work("a", 0)), "a", "a-1")
            && RecordOf(Exec(s, Work("a", 0)), "a", "a-1").logs == []
  {
    var s := StartedElsewhere();
    assert SoundNode(s.nodes["b"], s.clock);
    var relay := RelayOne(s, "b", "a", "a-1", false);
    RunsJoin(START, STARTED, relay);
    steps := STARTED + relay;
  }

  const REPORT := JobArtifact("report", "/data/report", None, None)

  /** An artifact of the job is recorded and saved where it was submitted, */
  const REPORTED: seq<Step> := SHARE + [Act("a", AddArtifact("a-1", REPORT), NOW)] + [Work("a", 0)]

  lemma ReportSaved() returns (s: State)
    ensures Runs(START, REPORTED) && s == Final(START, REPORTED)
    ensures s.nodes.Keys == {"a", "b"} && s.nodes["a"].tasks == []
    ensures s.nodes["b"].mem.jobs.Keys == {"a-1"} && CounterSaved(s.nodes["b"]) && HasAt(s, "b", "a-1", 0)
    ensures HasAt(s, "a", "a-1", 0) && RecordOf(s, "a", "a-1").artifacts != []
  {
    var shared := JobShared();
    var add := Act("a", AddArtifact("a-1", REPORT), NOW);
    OneStep(START, SHARE, add);
    assert Exec(shared, add).nodes["a"].tasks == [[]];
    OneStep(START, SHARE + [add], Work("a", 0));
    s := Final(START, REPORTED);
  }

  /** and then the job is started by the node that received it. */
  const RESTARTED: seq<Step> := REPORTED + [Act("b", Start("a-1"), LATER)]

  lemma StartedAfterReport() returns (s: State)
    ensures Runs(START, RESTARTED) && s == Final(START, RESTARTED) && SoundState(s)
    ensures s.nodes.Keys == {"a", "b"} && s.nodes["a"].tasks == []
    ensures s.nodes["b"].mem.jobs.Keys == {"a-1"} && CounterSaved(s.nodes["b"]) && HasAt(s, "b", "a-1", 1)
    ensures HasAt(s, "a", "a-1", 0) && RecordOf(s, "a", "a-1").artifacts != []
  {
    var reported := ReportSaved();
    OneStep(START, REPORTED, Act("b", Start("a-1"), LATER));
    SoundFromStart(RESTARTED);
    s := Final(START, RESTARTED);
  }

  /** An artifact list is lost: its node hears by a periodic broadcast that the job
      was started elsewhere. */
  lemma ArtifactsErased() returns (steps: seq<Step>)
    ensures Initial(START) && Runs(START, steps)
    ensures var s := Final(START, steps);
            && Knows(s, "a", "a-1") && RecordOf(s, "a", "a-1").artifacts != []
            && Enabled(s, Work("a", 0)) && Knows(Exec(s, Work("a", 0)), "a", "a-1")
            && RecordOf(Exec(s, Work("a", 0)), "a", "a-1").artifacts == []
  {
    var s := StartedAfterReport();
    assert SoundNode(s.nodes["b"], s.clock);
    var relay := RelayOne(s, "b", "a", "a-1", true);
    RunsJoin(START, RESTARTED, relay);
    steps := RESTARTED + relay;
  }

  /** The node that submitted a job runs it to its end. */
  const FINISHED: seq<Step> := ANNOUNCE + [Act("a", Start("a-1"), NOW)] + [Act("a", Complete("a-1", 0), NOW)]

  lemma JobFinished() returns (s: State)
    ensures Runs(START, FINISHED) && s == Final(START, FINISHED) && SoundState(s)
    ensures s.nodes.Keys == {"a", "b"} && SubmitJob("a", "a-1", SPEC) in s.net && s.nodes["b"] == START.nodes["b"]
    ensures s.nodes["a"].mem.jobs.Keys == {"a-1"} && CounterSaved(s.nodes["a"])
    ensures HasAt(s, "a", "a-1", 0) && RecordOf(s, "a", "a-1").status == Completed
  {
    var announced := JobAnnounced();
    var start := Act("a", Start("a-1"), NOW);
    OneStep(START, ANNOUNCE, start);
    OneStep(START, ANNOUNCE + [start], Act("a", Complete("a-1", 0), NOW));
    SoundFromStart(FINISHED);
    s := Final(START, FINISHED);
  }

  /** A finished job becomes pending: the announcement of a job is overtaken by the
      news of its completion. */
  lemma CompletionUndone() returns (steps: seq<Step>)
    ensures Initial(START) && Runs(START, steps)
    ensures var s, late := Final(START, steps), ReceiveSubmit("b", SubmitJob("a", "a-1", SPEC), LATER);
            && Knows(s, "b", "a-1") && RecordOf(s, "b", "a-1").status == Completed
            && Enabled(s, late) && Knows(Exec(s, late), "b", "a-1")
            && RecordOf(Exec(s, late), "b", "a-1").status == Pending
  {
    var s := JobFinished();
    assert SoundNode(s.nodes["a"], s.clock);
    var relay := RelayOne(s, "a", "b", "a-1", false);
    RunsJoin(START, FINISHED, relay);
    OneStep(START, FINISHED + relay, Work("b", 0));
    steps := FINISHED + relay + [Work("b", 0)];
  }
}
