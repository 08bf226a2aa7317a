/** The Supervisor object (crates/agent/src/supervisor.rs), each method run
    without interruption; module Supervision has the interleavings. */
module Supervisors {
  import opened Components
  import opened Supervision

  /** A counter once the components of `desired` outside `todo` have been brought up. */
  function Raised(counts: map<string, nat>, desired: map<string, DesiredComponent>, todo: set<string>, name: string): nat {
    if name in desired && name !in todo then Max(At(counts, name), desired[name].spec.Want()) else At(counts, name)
  }

  lemma OneCounterFewer(counts: map<string, nat>, todo: set<string>, name: string)
    requires name in todo
    ensures WithCounters(WithCounters(counts, {name}), todo - {name}) == WithCounters(counts, todo)
  {
  }

  /** A launch adds its replica to those of its component and to no others. */
  lemma Launched(c: Core, name: string, d: Core)
    requires c.nextTask !in c.live && d.live == c.live[c.nextTask := name]
    ensures forall n :: |LiveOf(d, n)| == |LiveOf(c, n)| + if n == name then 1 else 0
  {
    forall n
      ensures |LiveOf(d, n)| == |LiveOf(c, n)| + if n == name then 1 else 0
    {
      LiveGrows(c, c.nextTask, name, n);
      SameLive(d, c.(live := d.live), n);
    }
  }

  // ---------- bringing components up ----------

  predicate Staged(http: map<string, bool>, name: string) {
    name in http && http[name]
  }

  function LaunchOne(c: Core, name: string, http: bool): Core {
    if http then Spawn(c, name, true) else Register(Spawn(c, name, false), name, c.nextTask)
  }

  ghost function NewReplicas(c: Core, d: Core, name: string): int {
    |LiveOf(d, name)| - |LiveOf(c, name)|
  }

  /** From `c` to `d` replicas were only added: as many to each component as its
      counter rose by, unless it is only staged, and each with a handle for cleanup. */
  ghost predicate Grown(c: Core, d: Core, http: map<string, bool>) {
    && (forall name :: NewReplicas(c, d, name) == if Staged(http, name) then 0 else At(d.counts, name) - At(c.counts, name))
    && (forall t :: t in c.live ==> t in d.live && d.live[t] == c.live[t])
    && (forall t :: t in d.live && t !in c.live ==> t in HandlesOf(d, d.live[t]))
    && (forall name :: HandlesOf(c, name) <= HandlesOf(d, name))
  }

  lemma GrownTransitive(c: Core, d: Core, e: Core, http: map<string, bool>)
    requires Grown(c, d, http) && Grown(d, e, http)
    ensures Grown(c, e, http)
  {
    forall name
      ensures NewReplicas(c, e, name) == if Staged(http, name) then 0 else At(e.counts, name) - At(c.counts, name)
    {
      assert NewReplicas(c, e, name) == NewReplicas(c, d, name) + NewReplicas(d, e, name);
    }
    forall name
      ensures HandlesOf(c, name) <= HandlesOf(e, name)
    {
      assert HandlesOf(c, name) <= HandlesOf(d, name) <= HandlesOf(e, name);
    }
    forall t | t in e.live && t !in c.live
      ensures t in HandlesOf(e, e.live[t])
    {
      assert HandlesOf(d, e.live[t]) <= HandlesOf(e, e.live[t]);
    }
  }

  lemma LaunchGrows(c: Core, name: string, http: map<string, bool>)
    requires c.nextTask !in c.live
    ensures Grown(c, LaunchOne(c, name, Staged(http, name)), http)
  {
    var d := LaunchOne(c, name, Staged(http, name));
    if Staged(http, name) {
      forall n {
        SameLive(c, d, n);
      }
    } else {
      Launched(c, name, d);
    }
  }

  function LaunchAll(c: Core, name: string, n: nat, http: bool): Core {
    if n == 0 then c else LaunchOne(LaunchAll(c, name, n - 1, http), name, http)
  }

  ghost predicate TasksFresh(c: Core) {
    forall t :: t in c.live ==> t < c.nextTask
  }

  lemma LaunchFresh(c: Core, name: string, http: bool)
    requires TasksFresh(c)
    ensures TasksFresh(LaunchOne(c, name, http)) && c.nextTask !in c.live
  {
  }

  lemma {:induction false} LaunchAllCounts(c: Core, name: string, n: nat, http: bool)
    requires TasksFresh(c)
    ensures TasksFresh(LaunchAll(c, name, n, http))
    ensures forall other ::
              At(LaunchAll(c, name, n, http).counts, other) == At(c.counts, other) + if other == name then n else 0
  {
    if n > 0 {
      LaunchAllCounts(c, name, n - 1, http);
      LaunchFresh(LaunchAll(c, name, n - 1, http), name, http);
    }
  }

  lemma OneMoreGrows(c: Core, name: string, n: nat, http: map<string, bool>)
    requires n > 0 && TasksFresh(c)
    requires Grown(c, LaunchAll(c, name, n - 1, Staged(http, name)), http)
    ensures Grown(c, LaunchAll(c, name, n, Staged(http, name)), http)
  {
    var d := LaunchAll(c, name, n - 1, Staged(http, name));
    LaunchAllCounts(c, name, n - 1, Staged(http, name));
    LaunchFresh(d, name, Staged(http, name));
    LaunchGrows(d, name, http);
    GrownTransitive(c, d, LaunchOne(d, name, Staged(http, name)), http);
  }

  lemma CounterGrows(c: Core, d: Core, http: map<string, bool>)
    requires d.live == c.live && d.tasks == c.tasks && forall name :: At(d.counts, name) == At(c.counts, name)
    ensures Grown(c, d, http)
  {
    forall name {
      SameLive(c, d, name);
    }
  }

  lemma {:induction false} LaunchAllGrows(c: Core, name: string, n: nat, http: map<string, bool>)
    requires TasksFresh(c)
    ensures Grown(c, LaunchAll(c, name, n, Staged(http, name)), http)
  {
    if n == 0 {
      CounterGrows(c, c, http);
    } else {
      LaunchAllGrows(c, name, n - 1, http);
      OneMoreGrows(c, name, n, http);
    }
  }

  function Lacking(c: Core, name: string, want: nat): nat {
    if At(c.counts, name) < want then want - At(c.counts, name) else 0
  }

  /** A component brought up to `want` replicas. */
  function Bring(c: Core, name: string, want: nat, http: bool): Core {
    LaunchAll(c.(counts := WithCounters(c.counts, {name})), name, Lacking(c, name, want), http)
  }

  lemma BringGrows(c: Core, name: string, want: nat, http: map<string, bool>)
    requires TasksFresh(c)
    ensures Grown(c, Bring(c, name, want, Staged(http, name)), http)
  {
    var d := c.(counts := WithCounters(c.counts, {name}));
    CounterGrows(c, d, http);
    LaunchAllGrows(d, name, Lacking(c, name, want), http);
    GrownTransitive(c, d, Bring(c, name, want, Staged(http, name)), http);
  }

  lemma BringCounts(c: Core, name: string, want: nat, http: bool)
    requires TasksFresh(c)
    ensures forall other :: At(Bring(c, name, want, http).counts, other)
                            == if other == name then Max(At(c.counts, name), want) else At(c.counts, other)
  {
    var d := c.(counts := WithCounters(c.counts, {name}));
    LaunchAllCounts(d, name, Lacking(c, name, want), http);
    assert forall other :: At(d.counts, other) == At(c.counts, other);
  }

  /** Since `c` the components outside `todo` have been brought up. */
  ghost predicate RoundSoFar(c: Core, d: Core, desired: map<string, DesiredComponent>, todo: set<string>,
                             http: map<string, bool>) {
    Grown(c, d, http) && forall name :: At(d.counts, name) == Raised(c.counts, desired, todo, name)
  }

  lemma RaisedStep(start: map<string, nat>, now: map<string, nat>, after: map<string, nat>,
                   desired: map<string, DesiredComponent>, todo: set<string>, name: string)
    requires name in todo && name in desired
    requires forall n :: At(now, n) == Raised(start, desired, todo, n)
    requires forall n :: At(after, n) == if n == name then Max(At(now, name), desired[name].spec.Want()) else At(now, n)
    ensures forall n :: At(after, n) == Raised(start, desired, todo - {name}, n)
  {
  }

  lemma RoundGoesOn(c: Core, d: Core, desired: map<string, DesiredComponent>, todo: set<string>, name: string,
                    http: map<string, bool>)
    requires RoundSoFar(c, d, desired, todo, http) && TasksFresh(d) && name in todo && name in desired
    ensures RoundSoFar(c, Bring(d, name, desired[name].spec.Want(), Staged(http, name)), desired, todo - {name}, http)
  {
    var want := desired[name].spec.Want();
    var e := Bring(d, name, want, Staged(http, name));
    BringGrows(d, name, want, http);
    BringCounts(d, name, want, Staged(http, name));
    GrownTransitive(c, d, e, http);
    RaisedStep(c.counts, d.counts, e.counts, desired, todo, name);
  }

  /** `live` and `cancelled` are the runtime's replica tasks. */
  class Supervisor {
    var desired: map<string, DesiredComponent>
    var counts: map<string, nat>
    var tasks: map<string, seq<TaskId>>
    var live: map<TaskId, string>
    var cancelled: set<TaskId>
    var nextTask: TaskId

    function State(): Core
      reads this
    {
      Core(desired, counts, tasks, live, cancelled, nextTask)
    }

    ghost predicate Valid()
      reads this
    {
      && WellNamed(desired)
      && (forall t :: t in live ==> t < nextTask && At(counts, live[t]) >= |LiveOf(State(), live[t])|)
    }

    constructor ()
      ensures Valid() && State() == EMPTY
    {
      desired, counts, tasks, live, cancelled, nextTask := map[], map[], map[], map[], {}, 0;
    }

    method EnsureCounter(name: string)
      modifies this`counts
      ensures counts == WithCounters(old(counts), {name})
    {
      if name !in counts {
        counts := counts[name := 0];
      }
    }

    method SetDesiredComponents(wanted: map<string, DesiredComponent>)
      requires Valid() && WellNamed(wanted)
      modifies this`desired, this`counts
      ensures Valid() && State() == SetDesired(old(State()), wanted)
    {
      desired := wanted;
      EnsureCounters(wanted.Keys);
      assert forall n :: LiveOf(State(), n) == LiveOf(old(State()), n);
      assert forall n :: At(counts, n) == At(old(counts), n);
    }

    method EnsureCounters(names: set<string>)
      modifies this`counts
      ensures counts == WithCounters(old(counts), names)
    {
      var todo := names;
      while todo != {}
        invariant WithCounters(counts, todo) == WithCounters(old(counts), names)
        decreases |todo|
      {
        var name :| name in todo;
        OneCounterFewer(counts, todo, name);
        EnsureCounter(name);
        todo := todo - {name};
      }
      assert WithCounters(counts, {}) == counts;
    }

    method UpsertComponent(component: DesiredComponent)
      requires Valid()
      modifies this`desired, this`counts
      ensures Valid() && State() == Upsert(old(State()), component)
    {
      desired := desired[component.name := component];
      EnsureCounter(component.name);
      assert forall n :: LiveOf(State(), n) == LiveOf(old(State()), n);
    }

    /** One launch; `http` says whether the artifact exports an HTTP handler. */
    method LaunchReplica(name: string, http: bool)
      requires Valid()
      modifies this`counts, this`tasks, this`live, this`nextTask
      ensures Valid()
      ensures State() == LaunchOne(old(State()), name, http)
    {
      if http {
        counts := counts[name := At(counts, name) + 1];
        assert forall n :: LiveOf(State(), n) == LiveOf(old(State()), n);
        return;
      }
      counts := counts[name := At(counts, name) + 1];
      var task := nextTask;
      live, nextTask := live[task := name], task + 1;
      tasks := tasks[name := (if name in tasks then tasks[name] else []) + [task]];
      Launched(old(State()), name, State());
    }

    /** The exit path of a replica: the counter is above zero, so it does not wrap. */
    method ReplicaExit(task: TaskId)
      requires Valid() && task in live
      modifies this`counts, this`live
      ensures Valid() && State() == Exit(old(State()), task)
      ensures At(counts, old(live)[task]) == At(old(counts), old(live)[task]) - 1
    {
      var name := live[task];
      assert task in LiveOf(State(), name);
      counts := counts[name := Decrement(At(counts, name))];
      live := live - {task};
      forall n
        ensures |LiveOf(old(State()), n)| == |LiveOf(State(), n)| + if n == name then 1 else 0
      {
        LiveShrinks(old(State()), task, n);
        SameLive(State(), old(State()).(live := live), n);
      }
    }

    method CleanupComponent(name: string)
      requires Valid()
      modifies this`tasks, this`cancelled
      ensures Valid() && State() == Cleanup(old(State()), name)
      ensures counts == old(counts)
    {
      if name in tasks {
        cancelled := cancelled + set t | t in tasks[name] :: t;
        tasks := tasks - {name};
      }
      assert forall n :: LiveOf(State(), n) == LiveOf(old(State()), n);
    }

    /** One uninterrupted round raises every desired component to its target, by
        new replicas, and lowers none. */
    method ReconcileOnce(http: map<string, bool>)
      requires Valid()
      modifies this`counts, this`tasks, this`live, this`nextTask
      ensures Valid() && desired == old(desired) && cancelled == old(cancelled)
      ensures forall name :: At(counts, name) == Raised(old(counts), desired, {}, name)
      ensures Grown(old(State()), State(), http)
    {
      var snapshot := desired;
      var todo := snapshot.Keys;
      CounterGrows(State(), State(), http);
      while todo != {}
        invariant todo <= snapshot.Keys && Valid()
        invariant RoundSoFar(old(State()), State(), snapshot, todo, http)
        decreases |todo|
      {
        var name :| name in todo;
        RoundGoesOn(old(State()), State(), snapshot, todo, name, http);
        BringUp(name, snapshot[name].spec.Want(), Staged(http, name));
        todo := todo - {name};
      }
    }

    method BringUp(name: string, want: nat, http: bool)
      requires Valid()
      modifies this`counts, this`tasks, this`live, this`nextTask
      ensures Valid() && State() == Bring(old(State()), name, want, http)
    {
      EnsureCounter(name);
      assert forall n :: LiveOf(State(), n) == LiveOf(old(State()), n);
      assert forall n :: At(counts, n) == At(old(counts), n);
      var running := counts[name];
      if running < want {
        LaunchMany(name, want - running, http);
      }
    }

    method LaunchMany(name: string, n: nat, http: bool)
      requires Valid()
      modifies this`counts, this`tasks, this`live, this`nextTask
      ensures Valid() && State() == LaunchAll(old(State()), name, n, http)
    {
      for i := 0 to n
        invariant Valid() && State() == LaunchAll(old(State()), name, i, http)
      {
        LaunchReplica(name, http);
      }
    }
  }
}
