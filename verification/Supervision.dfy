/** The replica supervisor (crates/agent/src/supervisor.rs): a reconcile loop
    interleaved with replica exits, changes of the desired set and forced
    cleanup. */
module Supervision {
  import opened Wrappers
  import opened Components

  type TaskId = nat

  function At(m: map<string, nat>, name: string): nat {
    if name in m then m[name] else 0
  }

  function Bump(m: map<string, nat>, name: string): map<string, nat> {
    m[name := At(m, name) + 1]
  }

  function Max(a: nat, b: nat): nat {
    if a >= b then a else b
  }

  const USIZE_MAX: nat := 0xFFFF_FFFF_FFFF_FFFF

  /** `fetch_sub(1)` wraps below zero. */
  function Decrement(n: nat): nat {
    if n == 0 then USIZE_MAX else n - 1
  }

  /** The supervisor's maps, with the replica tasks the runtime is running for
      it. An aborted task stops at its next await; until then it is only marked. */
  datatype Core = Core(
    desired: map<string, DesiredComponent>,
    counts: map<string, nat>,
    tasks: map<string, seq<TaskId>>,
    live: map<TaskId, string>,
    cancelled: set<TaskId>,
    nextTask: TaskId)

  function WithCounters(counts: map<string, nat>, names: set<string>): map<string, nat> {
    map name | name in counts.Keys + names :: At(counts, name)
  }

  function SetDesired(c: Core, desired: map<string, DesiredComponent>): Core {
    c.(desired := desired, counts := WithCounters(c.counts, desired.Keys))
  }

  function Upsert(c: Core, component: DesiredComponent): Core {
    c.(desired := c.desired[component.name := component], counts := WithCounters(c.counts, {component.name}))
  }

  function HandlesOf(c: Core, name: string): seq<TaskId> {
    if name in c.tasks then c.tasks[name] else []
  }

  /** A launch up to the spawn: an HTTP component is only counted. */
  function Spawn(c: Core, name: string, http: bool): Core {
    var c1 := c.(counts := Bump(c.counts, name));
    if http then c1 else c1.(live := c.live[c.nextTask := name], nextTask := c.nextTask + 1)
  }

  /** The end of a launch: the handle is kept for cleanup. */
  function Register(c: Core, name: string, task: TaskId): Core {
    c.(tasks := c.tasks[name := (if name in c.tasks then c.tasks[name] else []) + [task]])
  }

  /** The exit path of a replica; it has no await, so it is one step. */
  function Exit(c: Core, task: TaskId): Core
    requires task in c.live
  {
    c.(counts := c.counts[c.live[task] := Decrement(At(c.counts, c.live[task]))],
    live := c.live - {task})
  }

  function Cleanup(c: Core, name: string): Core {
    if name in c.tasks
    then c.(tasks := c.tasks - {name}, cancelled := c.cancelled + set t | t in c.tasks[name] :: t)
    else c
  }

  // ---------- what the operations change ----------

  /** Counters are only added, at zero. */
  lemma CountersAdded(counts: map<string, nat>, names: set<string>)
    ensures var after := WithCounters(counts, names);
            && after.Keys == counts.Keys + names
            && forall name :: At(after, name) == At(counts, name)
  {
  }

  /** The desired set is replaced, and with it every old component that is not in the
      new one; a single component is added or replaced. No replica is touched. */
  lemma DesiredChanges(c: Core, desired: map<string, DesiredComponent>, x: DesiredComponent)
    ensures var s, u := SetDesired(c, desired), Upsert(c, x);
            && s.desired == desired && desired.Keys <= s.counts.Keys
            && x.name in u.desired && u.desired[x.name] == x && x.name in u.counts
            && u.desired.Keys == c.desired.Keys + {x.name}
            && (forall name :: name in c.desired && name != x.name ==> u.desired[name] == c.desired[name])
            && (forall name :: At(s.counts, name) == At(c.counts, name) && At(u.counts, name) == At(c.counts, name))
            && s == c.(desired := s.desired, counts := s.counts) && u == c.(desired := u.desired, counts := u.counts)
  {
  }

  /** A launch counts one replica; unless HTTP it starts one, new task and registers
      its handle behind the component's others. */
  lemma LaunchChanges(c: Core, name: string)
    requires c.nextTask !in c.live
    ensures var h := Spawn(c, name, true);
            && At(h.counts, name) == At(c.counts, name) + 1 && h == c.(counts := h.counts)
            && (forall other :: other != name ==> At(h.counts, other) == At(c.counts, other))
    ensures var d := Register(Spawn(c, name, false), name, c.nextTask);
            && d.counts == Spawn(c, name, true).counts && d.live.Keys == c.live.Keys + {c.nextTask}
            && d.live[c.nextTask] == name && (forall t :: t in c.live ==> d.live[t] == c.live[t])
            && HandlesOf(d, name) == HandlesOf(c, name) + [c.nextTask]
            && (forall other :: other != name ==> HandlesOf(d, other) == HandlesOf(c, other))
            && d.nextTask > c.nextTask && d.desired == c.desired && d.cancelled == c.cancelled
  {
  }

  /** Cleanup marks every handle of the component, forgets them, and does nothing else. */
  lemma CleanupChanges(c: Core, name: string)
    ensures var d := Cleanup(c, name);
            && (forall t :: t in d.cancelled <==> t in c.cancelled || t in HandlesOf(c, name))
            && HandlesOf(d, name) == [] && (forall other :: other != name ==> HandlesOf(d, other) == HandlesOf(c, other))
            && d == c.(tasks := d.tasks, cancelled := d.cancelled)
  {
  }

  // ---------- the reconcile task ----------

  /** A component being brought up: `left` replicas still to be spawned, and the
      handle of one already spawned but not yet registered. */
  datatype Launch = Launch(name: string, left: nat, unregistered: Option<TaskId>)

  datatype Reconciler = Idle | Busy(todo: seq<DesiredComponent>, launch: Option<Launch>)

  /** History, for stating the laws: totals per component, the largest target
      seen, and the current round's snapshot and starting counts. */
  datatype Ledger = Ledger(
    launches: map<string, nat>,
    exits: map<string, nat>,
    staged: map<string, nat>,
    aborted: map<string, nat>,
    highest: map<string, nat>,
    wants: map<string, nat>,
    startCounts: map<string, nat>,
    sawExit: bool)

  datatype State = State(core: Core, rec: Reconciler, ledger: Ledger)

  datatype Step =
    | DoSetDesired(desired: map<string, DesiredComponent>)
    | DoUpsert(component: DesiredComponent)
    | DoCleanup(name: string)
    | DoExit(task: TaskId)
    | DoDrop(task: TaskId)                                   // an aborted task stops without exiting
    | BeginRound(order: seq<DesiredComponent>)
    | Pick
    | DoSpawn(http: bool)
    | DoRegister
    | EndRound

  ghost predicate WellNamed(desired: map<string, DesiredComponent>) {
    forall name :: name in desired ==> desired[name].name == name
  }

  ghost predicate DistinctNames(s: seq<DesiredComponent>) {
    forall i, k :: 0 <= i < k < |s| ==> s[i].name != s[k].name
  }

  function Names(s: seq<DesiredComponent>): set<string> {
    set i | 0 <= i < |s| :: s[i].name
  }

  ghost predicate Enabled(s: State, step: Step) {
    match step
    case DoSetDesired(d) => WellNamed(d)
    case DoUpsert(_) => true
    case DoCleanup(_) => true
    case DoExit(t) => t in s.core.live
    case DoDrop(t) => t in s.core.live && t in s.core.cancelled
    case BeginRound(order) =>
      && s.rec.Idle? && DistinctNames(order)
      && (forall i :: 0 <= i < |order| ==> order[i].name in s.core.desired && s.core.desired[order[i].name] == order[i])
      && s.core.desired.Keys == Names(order)
    case Pick => s.rec.Busy? && s.rec.launch.None? && s.rec.todo != []
    case DoSpawn(_) => s.rec.Busy? && s.rec.launch.Some? && s.rec.launch.value.unregistered.None?
    case DoRegister => s.rec.Busy? && s.rec.launch.Some? && s.rec.launch.value.unregistered.Some?
    case EndRound => s.rec.Busy? && s.rec.launch.None? && s.rec.todo == []
  }

  function Raise(highest: map<string, nat>, desired: map<string, DesiredComponent>): map<string, nat> {
    map name | name in highest.Keys + desired.Keys ::
      if name in desired then Max(At(highest, name), desired[name].spec.Want()) else highest[name]
  }

  /** What remains of a launch once a spawn or registration is done. */
  function Continue(l: Launch): Option<Launch> {
    if l.left == 0 && l.unregistered.None? then None else Some(l)
  }

  ghost function Exec(s: State, step: Step): State
    requires Enabled(s, step)
  {
    var c, g := s.core, s.ledger;
    match step
    case DoSetDesired(d) => s.(core := SetDesired(c, d), ledger := g.(highest := Raise(g.highest, d)))
    case DoUpsert(x) => s.(core := Upsert(c, x), ledger := g.(highest := Raise(g.highest, map[x.name := x])))
    case DoCleanup(name) => s.(core := Cleanup(c, name))
    case DoExit(t) =>
      s.(core := Exit(c, t), ledger := g.(exits := Bump(g.exits, c.live[t]), sawExit := true))
    case DoDrop(t) =>
      s.(core := c.(live := c.live - {t}), ledger := g.(aborted := Bump(g.aborted, c.live[t])))
    case BeginRound(order) =>
      s.(rec := Busy(order, None),
      ledger := g.(wants := (map name | name in c.desired :: c.desired[name].spec.Want()),
      startCounts := c.counts, sawExit := false))
    case Pick =>
      var x := s.rec.todo[0];
      var want, running := x.spec.Want(), At(c.counts, x.name);
      s.(core := c.(counts := WithCounters(c.counts, {x.name})),
      rec := Busy(s.rec.todo[1..], if running < want then Some(Launch(x.name, want - running, None)) else None))
    case DoSpawn(http) =>
      var l := s.rec.launch.value;
      var l1 := l.(left := if l.left == 0 then 0 else l.left - 1);
      s.(core := Spawn(c, l.name, http),
      rec := Busy(s.rec.todo, Continue(if http then l1 else l1.(unregistered := Some(c.nextTask)))),
      ledger := g.(launches := Bump(g.launches, l.name),
      staged := if http then Bump(g.staged, l.name) else g.staged))
    case DoRegister =>
      var l := s.rec.launch.value;
      s.(core := Register(c, l.name, l.unregistered.value),
      rec := Busy(s.rec.todo, Continue(l.(unregistered := None))))
    case EndRound => s.(rec := Idle)
  }

  const EMPTY := Core(map[], map[], map[], map[], {}, 0)
  const INITIAL := State(EMPTY, Idle, Ledger(map[], map[], map[], map[], map[], map[], map[], false))

  ghost predicate Runs(s: State, steps: seq<Step>)
    decreases |steps|
  {
    steps == [] || (Enabled(s, steps[0]) && Runs(Exec(s, steps[0]), steps[1..]))
  }

  ghost function Final(s: State, steps: seq<Step>): State
    requires Runs(s, steps)
    decreases |steps|
  {
    if steps == [] then s else Final(Exec(s, steps[0]), steps[1..])
  }

  lemma RunStep(s: State, step: Step, rest: seq<Step>)
    requires Enabled(s, step) && Runs(Exec(s, step), rest)
    ensures Runs(s, [step] + rest) && Final(s, [step] + rest) == Final(Exec(s, step), rest)
  {
    assert ([step] + rest)[1..] == rest;
  }

  lemma {:induction false} RunsJoin(s: State, p: seq<Step>, q: seq<Step>)
    requires Runs(s, p) && Runs(Final(s, p), q)
    ensures Runs(s, p + q) && Final(s, p + q) == Final(Final(s, p), q)
    decreases |p|
  {
    if p == [] {
      assert p + q == q;
    } else {
      var t := Exec(s, p[0]);
      assert Final(s, p) == Final(t, p[1..]);
      RunsJoin(t, p[1..], q);
      RunStep(s, p[0], p[1..] + q);
      assert p + q == [p[0]] + (p[1..] + q);
    }
  }

  // ---------- the laws ----------

  ghost function LiveOf(c: Core, name: string): set<TaskId> {
    set t | t in c.live && c.live[t] == name
  }

  /** launches = count + exits, and launches = live + staged + exits + aborted. */
  ghost predicate Conserved(s: State, name: string) {
    var g := s.ledger;
    && At(g.launches, name) == At(s.core.counts, name) + At(g.exits, name)
    && At(g.launches, name) == |LiveOf(s.core, name)| + At(g.staged, name) + At(g.exits, name) + At(g.aborted, name)
  }

  ghost predicate AllConserved(s: State) {
    && (forall t :: t in s.core.live ==> t < s.core.nextTask)
    && (forall name :: Conserved(s, name))
  }

  lemma LiveGrows(c: Core, t: TaskId, name: string, other: string)
    requires t !in c.live
    ensures |LiveOf(c.(live := c.live[t := name]), other)| == |LiveOf(c, other)| + if other == name then 1 else 0
  {
    var after := LiveOf(c.(live := c.live[t := name]), other);
    if other == name {
      assert after == LiveOf(c, other) + {t};
    } else {
      assert after == LiveOf(c, other);
    }
  }

  lemma LiveShrinks(c: Core, t: TaskId, other: string)
    requires t in c.live
    ensures |LiveOf(c, other)| == |LiveOf(c.(live := c.live - {t}), other)| + if other == c.live[t] then 1 else 0
  {
    var after := LiveOf(c.(live := c.live - {t}), other);
    if other == c.live[t] {
      assert LiveOf(c, other) == after + {t};
    } else {
      assert LiveOf(c, other) == after;
    }
  }

  lemma SameLive(c: Core, d: Core, name: string)
    requires c.live == d.live
    ensures LiveOf(c, name) == LiveOf(d, name)
  {
  }

  lemma StepConserves(s: State, step: Step, name: string)
    requires Enabled(s, step) && AllConserved(s)
    ensures Conserved(Exec(s, step), name)
  {
    var t := Exec(s, step);
    assert Conserved(s, name);
    match step {
      case DoExit(task) =>
        LiveShrinks(s.core, task, name);
        SameLive(t.core, s.core.(live := s.core.live - {task}), name);
      case DoDrop(task) => LiveShrinks(s.core, task, name);
      case DoSpawn(http) =>
        if http {
          SameLive(s.core, t.core, name);
        } else {
          LiveGrows(s.core, s.core.nextTask, s.rec.launch.value.name, name);
          SameLive(t.core, s.core.(live := s.core.live[s.core.nextTask := s.rec.launch.value.name]), name);
        }
      case _ => SameLive(s.core, t.core, name);
    }
  }

  lemma {:induction false} RunConserves(s: State, steps: seq<Step>)
    requires Runs(s, steps) && AllConserved(s)
    ensures AllConserved(Final(s, steps))
    decreases |steps|
  {
    if steps != [] {
      forall name {
        StepConserves(s, steps[0], name);
      }
      RunConserves(Exec(s, steps[0]), steps[1..]);
    }
  }

  /** In every reachable state a counter exceeds the live and staged replicas of
      its component by exactly the number aborted by cleanup; hence an exit never
      finds the counter at zero. */
  lemma CountExceedsLiveByAborted(steps: seq<Step>, name: string)
    requires Runs(INITIAL, steps)
    ensures var s := Final(INITIAL, steps);
            && At(s.core.counts, name) ==
                 |LiveOf(s.core, name)| + At(s.ledger.staged, name) + At(s.ledger.aborted, name)
            && forall t :: t in LiveOf(s.core, name) ==> At(s.core.counts, name) > 0
  {
    assert forall n :: LiveOf(EMPTY, n) == {};
    RunConserves(INITIAL, steps);
    var s := Final(INITIAL, steps);
    assert Conserved(s, name);
    forall t | t in LiveOf(s.core, name)
      ensures At(s.core.counts, name) > 0
    {
      assert LiveOf(s.core, name) != {};
    }
  }

  // ---------- the bound ----------

  /** Replicas the round in progress is still going to launch. */
  function Owed(s: State, name: string): nat {
    if s.rec.Busy? && s.rec.launch.Some? && s.rec.launch.value.name == name then s.rec.launch.value.left else 0
  }

  ghost predicate CountBound(s: State, name: string) {
    At(s.core.counts, name) + Owed(s, name) <= At(s.ledger.highest, name)
  }

  ghost predicate TargetsSeen(s: State) {
    && WellNamed(s.core.desired)
    && (forall name :: name in s.core.desired ==> s.core.desired[name].spec.Want() <= At(s.ledger.highest, name))
    && (s.rec.Busy? ==>
          forall i :: 0 <= i < |s.rec.todo| ==> s.rec.todo[i].spec.Want() <= At(s.ledger.highest, s.rec.todo[i].name))
  }

  ghost predicate LaunchPending(s: State) {
    s.rec.Busy? && s.rec.launch.Some? && s.rec.launch.value.unregistered.None? ==> s.rec.launch.value.left > 0
  }

  ghost predicate Bounded(s: State) {
    TargetsSeen(s) && LaunchPending(s) && forall name :: CountBound(s, name)
  }

  lemma RaiseOnly(s: State, step: Step, name: string)
    requires Enabled(s, step)
    ensures At(s.ledger.highest, name) <= At(Exec(s, step).ledger.highest, name)
  {
  }

  lemma StepTargetsSeen(s: State, step: Step)
    requires Enabled(s, step) && TargetsSeen(s)
    ensures TargetsSeen(Exec(s, step))
  {
    var t := Exec(s, step);
    forall name | name in t.core.desired
      ensures t.core.desired[name].spec.Want() <= At(t.ledger.highest, name)
    {
      RaiseOnly(s, step, name);
    }
    if t.rec.Busy? {
      forall i | 0 <= i < |t.rec.todo|
        ensures t.rec.todo[i].spec.Want() <= At(t.ledger.highest, t.rec.todo[i].name)
      {
        RaiseOnly(s, step, t.rec.todo[i].name);
      }
    }
  }

  lemma StepCountBound(s: State, step: Step, name: string)
    requires Enabled(s, step) && TargetsSeen(s) && LaunchPending(s) && CountBound(s, name)
    requires step.DoExit? ==> At(s.core.counts, s.core.live[step.task]) > 0
    ensures CountBound(Exec(s, step), name)
  {
    RaiseOnly(s, step, name);
  }

  lemma StepBounded(s: State, step: Step)
    requires Enabled(s, step) && AllConserved(s) && Bounded(s)
    ensures Bounded(Exec(s, step))
  {
    if step.DoExit? {
      var name := s.core.live[step.task];
      assert Conserved(s, name);
      assert step.task in LiveOf(s.core, name);
    }
    StepTargetsSeen(s, step);
    forall name
      ensures CountBound(Exec(s, step), name)
    {
      assert CountBound(s, name);
      StepCountBound(s, step, name);
    }
  }

  lemma {:induction false} RunBounded(s: State, steps: seq<Step>)
    requires Runs(s, steps) && AllConserved(s) && Bounded(s)
    ensures AllConserved(Final(s, steps)) && Bounded(Final(s, steps))
    decreases |steps|
  {
    if steps != [] {
      forall name {
        StepConserves(s, steps[0], name);
      }
      StepBounded(s, steps[0]);
      RunBounded(Exec(s, steps[0]), steps[1..]);
    }
  }

  /** A counter never exceeds the largest replica target its component has had. */
  lemma CountBounded(steps: seq<Step>, name: string)
    requires Runs(INITIAL, steps)
    ensures At(Final(INITIAL, steps).core.counts, name) <= At(Final(INITIAL, steps).ledger.highest, name)
  {
    assert forall n :: LiveOf(EMPTY, n) == {};
    RunBounded(INITIAL, steps);
    assert CountBound(Final(INITIAL, steps), name);
  }

  // ---------- one round ----------

  /** What a round without exits makes of a counter. */
  function Target(g: Ledger, name: string): nat {
    if name in g.wants then Max(At(g.startCounts, name), g.wants[name]) else At(g.startCounts, name)
  }

  ghost predicate OnCourse(s: State) {
    s.rec.Busy? && !s.ledger.sawExit ==>
      var todo := s.rec.todo;
      && DistinctNames(todo)
      && (forall i :: 0 <= i < |todo| ==>
            todo[i].name in s.ledger.wants && s.ledger.wants[todo[i].name] == todo[i].spec.Want())
      && (forall i :: 0 <= i < |todo| ==> At(s.core.counts, todo[i].name) == At(s.ledger.startCounts, todo[i].name))
      && (s.rec.launch.Some? ==> s.rec.launch.value.name !in Names(todo))
      && (forall name :: name !in Names(todo) ==>
            At(s.core.counts, name) + Owed(s, name) == Target(s.ledger, name))
  }

  lemma FirstName(todo: seq<DesiredComponent>)
    requires todo != [] && DistinctNames(todo)
    ensures Names(todo) == {todo[0].name} + Names(todo[1..]) && todo[0].name !in Names(todo[1..])
  {
    var x, rest := todo[0], todo[1..];
    forall name
      ensures name in Names(todo) <==> name == x.name || name in Names(rest)
    {
      if name in Names(todo) {
        var i :| 0 <= i < |todo| && todo[i].name == name;
        assert i > 0 ==> rest[i - 1].name == name;
      }
      if name in Names(rest) {
        var i :| 0 <= i < |rest| && rest[i].name == name;
        assert todo[i + 1].name == name;
      }
    }
  }

  lemma PickOnCourse(s: State)
    requires Enabled(s, Pick) && OnCourse(s) && !s.ledger.sawExit
    ensures OnCourse(Exec(s, Pick))
  {
    assert s.rec.todo[0].name in s.ledger.wants;
    FirstName(s.rec.todo);
  }

  /** Apart from exits and the moves of the round itself, a step changes no sum of
      a counter and what is owed to it, and only the launching component's counter. */
  lemma SumKept(s: State, step: Step, name: string)
    requires Enabled(s, step) && LaunchPending(s)
    requires !step.Pick? && !step.BeginRound? && !step.DoExit? && !step.EndRound?
    ensures At(Exec(s, step).core.counts, name) + Owed(Exec(s, step), name) == At(s.core.counts, name) + Owed(s, name)
    ensures !(s.rec.Busy? && s.rec.launch.Some? && s.rec.launch.value.name == name) ==>
              At(Exec(s, step).core.counts, name) == At(s.core.counts, name)
  {
  }

  lemma FrameOnCourse(s: State, step: Step)
    requires Enabled(s, step) && Bounded(s) && OnCourse(s)
    requires !step.Pick? && !step.BeginRound? && !step.DoExit? && !step.EndRound?
    ensures OnCourse(Exec(s, step))
  {
    var t := Exec(s, step);
    if s.rec.Busy? && !s.ledger.sawExit {
      var todo := s.rec.todo;
      forall i | 0 <= i < |todo|
        ensures At(t.core.counts, todo[i].name) == At(s.ledger.startCounts, todo[i].name)
      {
        assert todo[i].name in Names(todo);
        SumKept(s, step, todo[i].name);
      }
      forall name | name !in Names(todo)
        ensures At(t.core.counts, name) + Owed(t, name) == Target(t.ledger, name)
      {
        SumKept(s, step, name);
      }
    }
  }

  lemma StepOnCourse(s: State, step: Step)
    requires Enabled(s, step) && Bounded(s) && OnCourse(s)
    ensures OnCourse(Exec(s, step))
  {
    var t := Exec(s, step);
    if t.rec.Busy? && !t.ledger.sawExit {
      match step {
        case Pick => PickOnCourse(s);
        case BeginRound(order) =>
          forall name | name !in Names(order)
            ensures At(t.core.counts, name) + Owed(t, name) == Target(t.ledger, name)
          {
            assert name !in s.core.desired;
          }
        case _ => FrameOnCourse(s, step);
      }
    }
  }

  lemma {:induction false} RunOnCourse(s: State, steps: seq<Step>)
    requires Runs(s, steps) && AllConserved(s) && Bounded(s) && OnCourse(s)
    ensures OnCourse(Final(s, steps))
    decreases |steps|
  {
    if steps != [] {
      forall name {
        StepConserves(s, steps[0], name);
      }
      StepBounded(s, steps[0]);
      StepOnCourse(s, steps[0]);
      RunOnCourse(Exec(s, steps[0]), steps[1..]);
    }
  }

  /** When a round ends in which no replica exited, whatever else happened during
      it, every component of its snapshot has at least its target counted, and
      exactly its target if it started at or below it. */
  lemma RoundReachesTargets(steps: seq<Step>, name: string)
    requires Runs(INITIAL, steps) && Enabled(Final(INITIAL, steps), EndRound)
    requires !Final(INITIAL, steps).ledger.sawExit && name in Final(INITIAL, steps).ledger.wants
    ensures var s := Final(INITIAL, steps);
            var want := s.ledger.wants[name];
            && At(s.core.counts, name) >= want
            && (At(s.ledger.startCounts, name) <= want ==> At(s.core.counts, name) == want)
  {
    assert forall n :: LiveOf(EMPTY, n) == {};
    RunOnCourse(INITIAL, steps);
    assert name !in Names(Final(INITIAL, steps).rec.todo);
  }

  /** What that leaves running: the larger of the target and the starting count,
      less all that cleanup ever aborted. */
  lemma RoundLeavesRunning(steps: seq<Step>, name: string)
    requires Runs(INITIAL, steps) && Enabled(Final(INITIAL, steps), EndRound)
    requires !Final(INITIAL, steps).ledger.sawExit && name in Final(INITIAL, steps).ledger.wants
    ensures var s := Final(INITIAL, steps);
            |LiveOf(s.core, name)| + At(s.ledger.staged, name)
            == Max(At(s.ledger.startCounts, name), s.ledger.wants[name]) - At(s.ledger.aborted, name)
  {
    CountExceedsLiveByAborted(steps, name);
    assert forall n :: LiveOf(EMPTY, n) == {};
    RunOnCourse(INITIAL, steps);
    assert name !in Names(Final(INITIAL, steps).rec.todo);
  }

  /** The steps of one round, whatever else happens among them. */
  ghost predicate WithinRound(steps: seq<Step>) {
    forall i :: 0 <= i < |steps| ==> !steps[i].BeginRound?
  }

  lemma {:induction false} RoundKeepsStart(s: State, steps: seq<Step>)
    requires Runs(s, steps) && WithinRound(steps) && !Final(s, steps).ledger.sawExit
    ensures var g, h := s.ledger, Final(s, steps).ledger;
            !g.sawExit && h.wants == g.wants && h.startCounts == g.startCounts && h.exits == g.exits
    decreases |steps|
  {
    if steps != [] {
      RoundKeepsStart(Exec(s, steps[0]), steps[1..]);
    }
  }

  lemma ReachableOnCourse(steps: seq<Step>)
    requires Runs(INITIAL, steps)
    ensures var s := Final(INITIAL, steps); AllConserved(s) && Bounded(s) && OnCourse(s)
  {
    assert forall n :: LiveOf(EMPTY, n) == {};
    RunBounded(INITIAL, steps);
    RunOnCourse(INITIAL, steps);
  }

  lemma RoundBegins(s: State, order: seq<DesiredComponent>)
    requires Enabled(s, BeginRound(order)) && AllConserved(s) && Bounded(s) && OnCourse(s)
    ensures var u := Exec(s, BeginRound(order)); AllConserved(u) && Bounded(u) && OnCourse(u)
  {
    forall n {
      StepConserves(s, BeginRound(order), n);
    }
    StepBounded(s, BeginRound(order));
    StepOnCourse(s, BeginRound(order));
  }

  /** At the end of a round without exits, its launches are what the counter rose by. */
  lemma RoundEnds(u: State, round: seq<Step>, name: string)
    requires AllConserved(u) && Bounded(u) && OnCourse(u) && Runs(u, round) && WithinRound(round)
    requires Enabled(Final(u, round), EndRound) && !Final(u, round).ledger.sawExit
    ensures var t := Final(u, round);
            && At(t.core.counts, name) == Target(u.ledger, name)
            && At(t.ledger.launches, name) - At(u.ledger.launches, name) == At(t.core.counts, name) - At(u.core.counts, name)
  {
    var t := Final(u, round);
    RunConserves(u, round);
    RunOnCourse(u, round);
    RoundKeepsStart(u, round);
    assert Conserved(u, name) && Conserved(t, name);
    assert name !in Names(t.rec.todo);
  }

  /** A round without exits launches what each component of its snapshot lacks. */
  lemma RoundLaunches(before: seq<Step>, order: seq<DesiredComponent>, round: seq<Step>, name: string)
    requires Runs(INITIAL, before) && Enabled(Final(INITIAL, before), BeginRound(order))
    requires var s := Exec(Final(INITIAL, before), BeginRound(order));
             && Runs(s, round) && WithinRound(round)
             && Enabled(Final(s, round), EndRound) && !Final(s, round).ledger.sawExit
    requires name in Final(INITIAL, before).core.desired
    ensures var s := Final(INITIAL, before);
            var t := Final(Exec(s, BeginRound(order)), round);
            var want := s.core.desired[name].spec.Want();
            At(t.ledger.launches, name) - At(s.ledger.launches, name)
            == Max(At(s.core.counts, name), want) - At(s.core.counts, name)
  {
    var s := Final(INITIAL, before);
    ReachableOnCourse(before);
    RoundBegins(s, order);
    RoundEnds(Exec(s, BeginRound(order)), round, name);
  }

  /** Whether a stopped component comes back: of a component none of whose replicas
      is left, a round without exits launches one if and only if more replicas are
      wanted than its counter shows, which is the number that cleanup has aborted. */
  lemma StoppedComesBackIff(before: seq<Step>, order: seq<DesiredComponent>, round: seq<Step>, name: string)
    requires Runs(INITIAL, before) && Enabled(Final(INITIAL, before), BeginRound(order))
    requires var s := Exec(Final(INITIAL, before), BeginRound(order));
             && Runs(s, round) && WithinRound(round)
             && Enabled(Final(s, round), EndRound) && !Final(s, round).ledger.sawExit
    requires var s := Final(INITIAL, before);
             name in s.core.desired && LiveOf(s.core, name) == {} && At(s.ledger.staged, name) == 0
    ensures var s := Final(INITIAL, before);
            var t := Final(Exec(s, BeginRound(order)), round);
            && At(s.core.counts, name) == At(s.ledger.aborted, name)
            && (At(t.ledger.launches, name) > At(s.ledger.launches, name)
                <==> s.core.desired[name].spec.Want() > At(s.core.counts, name))
  {
    CountExceedsLiveByAborted(before, name);
    RoundLaunches(before, order, round, name);
  }

  // ---------- every replica can be stopped ----------

  /** The replica the round in progress has spawned and not yet registered. */
  ghost predicate Unregistered(s: State, t: TaskId, name: string) {
    s.rec.Busy? && s.rec.launch.Some? && s.rec.launch.value.name == name && s.rec.launch.value.unregistered == Some(t)
  }

  /** Every replica has a handle at its component, is aborted, or is about to get one. */
  ghost predicate Reachable(s: State, t: TaskId)
    requires t in s.core.live
  {
    var name := s.core.live[t];
    t in s.core.cancelled || t in HandlesOf(s.core, name) || Unregistered(s, t, name)
  }

  ghost predicate OwnTask(c: Core, name: string, t: TaskId) {
    t < c.nextTask && (t in c.live ==> c.live[t] == name)
  }

  /** No handle is kept under another component's name, or of a task yet to come. */
  ghost predicate HandlesRight(s: State) {
    && (forall t :: t in s.core.live ==> t < s.core.nextTask)
    && (forall t :: t in s.core.cancelled ==> t < s.core.nextTask)
    && (forall name, t :: t in HandlesOf(s.core, name) ==> OwnTask(s.core, name, t))
    && (forall name, t :: Unregistered(s, t, name) ==> OwnTask(s.core, name, t))
  }

  ghost predicate AllHandled(s: State) {
    HandlesRight(s) && forall t :: t in s.core.live ==> Reachable(s, t)
  }

  lemma StepHandlesRight(s: State, step: Step)
    requires Enabled(s, step) && HandlesRight(s)
    ensures HandlesRight(Exec(s, step))
  {
    var u := Exec(s, step);
    forall name, t | t in HandlesOf(u.core, name)
      ensures OwnTask(u.core, name, t)
    {
      if t in HandlesOf(s.core, name) {
        assert OwnTask(s.core, name, t);
      } else {
        assert Unregistered(s, t, name);
      }
    }
    forall t | t in u.core.cancelled
      ensures t < u.core.nextTask
    {
      if t !in s.core.cancelled {
        assert t in HandlesOf(s.core, step.name);
        assert OwnTask(s.core, step.name, t);
      }
    }
    forall name, t | Unregistered(u, t, name)
      ensures OwnTask(u.core, name, t)
    {
      assert Unregistered(s, t, name) ==> OwnTask(s.core, name, t);
    }
  }

  lemma StepHandled(s: State, step: Step, t: TaskId)
    requires Enabled(s, step) && AllHandled(s) && t in Exec(s, step).core.live
    ensures Reachable(Exec(s, step), t)
  {
    if t in s.core.live {
      assert Reachable(s, t);
    }
  }

  lemma {:induction false} RunHandled(s: State, steps: seq<Step>)
    requires Runs(s, steps) && AllHandled(s)
    ensures AllHandled(Final(s, steps))
    decreases |steps|
  {
    if steps != [] {
      StepHandlesRight(s, steps[0]);
      forall t | t in Exec(s, steps[0]).core.live
        ensures Reachable(Exec(s, steps[0]), t)
      {
        StepHandled(s, steps[0], t);
      }
      RunHandled(Exec(s, steps[0]), steps[1..]);
    }
  }

  /** In every reachable state a cleanup aborts all replicas of its component, but for
      one the round has not yet registered, and none of any other component. */
  lemma CleanupAbortsAll(steps: seq<Step>, name: string)
    requires Runs(INITIAL, steps)
    ensures var s := Final(INITIAL, steps);
            var t := Exec(s, DoCleanup(name));
            && LiveOf(t.core, name) == LiveOf(s.core, name) && t.core.counts == s.core.counts
            && (forall k :: k in LiveOf(t.core, name) ==> k in t.core.cancelled || Unregistered(t, k, name))
            && (forall k :: k in t.core.live && t.core.live[k] != name ==> (k in t.core.cancelled <==> k in s.core.cancelled))
  {
    var s := Final(INITIAL, steps);
    RunHandled(INITIAL, steps);
    CleanupChanges(s.core, name);
    forall k | k in LiveOf(s.core, name)
      ensures k in Cleanup(s.core, name).cancelled || Unregistered(s, k, name)
    {
      assert Reachable(s, k);
    }
    forall k | k in s.core.live && k in HandlesOf(s.core, name)
      ensures s.core.live[k] == name
    {
      assert OwnTask(s.core, name, k);
    }
  }

  ghost predicate AllDrops(steps: seq<Step>) {
    forall i :: 0 <= i < |steps| ==> steps[i].DoDrop?
  }

  /** Aborted replicas can all stop, one by one, and no others do. */
  lemma {:induction false} DropsClear(s: State, name: string, left: set<TaskId>) returns (steps: seq<Step>)
    requires left == LiveOf(s.core, name) && left <= s.core.cancelled
    ensures Runs(s, steps) && AllDrops(steps) && LiveOf(Final(s, steps).core, name) == {}
    ensures forall other :: other != name ==> LiveOf(Final(s, steps).core, other) == LiveOf(s.core, other)
    decreases |left|
  {
    if left == {} {
      steps := [];
    } else {
      var k :| k in left;
      var t := Exec(s, DoDrop(k));
      assert LiveOf(t.core, name) == left - {k};
      assert forall other :: other != name ==> LiveOf(t.core, other) == LiveOf(s.core, other);
      var rest := DropsClear(t, name, left - {k});
      RunStep(s, DoDrop(k), rest);
      steps := [DoDrop(k)] + rest;
    }
  }

  /** So a component is stopped by a cleanup outside its own launches: nothing of it
      need go on running. */
  lemma CleanupStops(steps: seq<Step>, name: string) returns (drops: seq<Step>)
    requires Runs(INITIAL, steps) && forall k :: !Unregistered(Final(INITIAL, steps), k, name)
    ensures var t := Exec(Final(INITIAL, steps), DoCleanup(name));
            && Runs(t, drops) && AllDrops(drops) && LiveOf(Final(t, drops).core, name) == {}
            && forall other :: other != name ==> LiveOf(Final(t, drops).core, other) == LiveOf(t.core, other)
  {
    CleanupAbortsAll(steps, name);
    var s := Final(INITIAL, steps);
    var t := Exec(s, DoCleanup(name));
    assert forall k :: Unregistered(t, k, name) ==> Unregistered(s, k, name);
    drops := DropsClear(t, name, LiveOf(t.core, name));
  }

  // ---------- a component that has been stopped ----------

  /** No replica of the component is alive or being launched, and its counter, left
      high by the replicas cleanup aborted, is at or above every target in sight. */
  ghost predicate Down(s: State, name: string, count: nat) {
    && At(s.core.counts, name) == count
    && LiveOf(s.core, name) == {}
    && (name in s.core.desired ==> s.core.desired[name].spec.Want() <= count)
    && (s.rec.Busy? ==>
          && (s.rec.launch.Some? ==> s.rec.launch.value.name != name)
          && forall i :: 0 <= i < |s.rec.todo| && s.rec.todo[i].name == name ==> s.rec.todo[i].spec.Want() <= count)
  }

  /** The step does not ask for more than `count` replicas of the component. */
  ghost predicate AsksAtMost(step: Step, name: string, count: nat) {
    match step
    case DoSetDesired(d) => name in d ==> d[name].spec.Want() <= count
    case DoUpsert(x) => x.name == name ==> x.spec.Want() <= count
    case _ => true
  }

  lemma StepStaysDown(s: State, step: Step, name: string, count: nat)
    requires Enabled(s, step) && Down(s, name, count) && AsksAtMost(step, name, count)
    ensures Down(Exec(s, step), name, count)
  {
    var t := Exec(s, step);
    if step.DoExit? {
      assert s.core.live[step.task] != name by {
        assert step.task !in LiveOf(s.core, name);
      }
    }
    forall k | k in t.core.live
      ensures t.core.live[k] != name
    {
      if k in s.core.live {
        assert k !in LiveOf(s.core, name);
      }
    }
  }

  /** Until more replicas are asked for than are counted, such a component never
      runs again, over any number of rounds and pushes. */
  lemma {:induction false} StoppedStaysDown(s: State, steps: seq<Step>, name: string, count: nat)
    requires Runs(s, steps) && Down(s, name, count)
    requires forall i :: 0 <= i < |steps| ==> AsksAtMost(steps[i], name, count)
    ensures LiveOf(Final(s, steps).core, name) == {}
    decreases |steps|
  {
    if steps != [] {
      StepStaysDown(s, steps[0], name, count);
      StoppedStaysDown(Exec(s, steps[0]), steps[1..], name, count);
    }
  }

  const WEB := DesiredComponent("web", "web.wasm", ComponentSpec("cached:0", "0", None, [], [], true))

  /** A component is pushed and a round begins; */
  const PUSH: seq<Step> := [DoUpsert(WEB)] + ([BeginRound([WEB])] + ([Pick] + []))

  /** its replica is launched, and the round ends; */
  const LAUNCH: seq<Step> := [DoSpawn(false)] + ([DoRegister] + ([EndRound] + []))

  /** the component is stopped and its task dropped. */
  const STOP: seq<Step> := [DoCleanup("web")] + ([DoDrop(0)] + [])

  lemma PushRun() returns (s: State)
    ensures Runs(INITIAL, PUSH) && s == Final(INITIAL, PUSH)
    ensures s.core == EMPTY.(desired := map["web" := WEB], counts := map["web" := 0])
    ensures s.rec == Busy([], Some(Launch("web", 1, None)))
    ensures s.ledger.staged == map[] && s.ledger.aborted == map[]
  {
    assert [WEB][0].name == "web";
    var s1 := Exec(INITIAL, DoUpsert(WEB));
    var begin := BeginRound([WEB]);
    var s2 := Exec(s1, begin);
    s := Exec(s2, Pick);
    RunStep(s2, Pick, []);
    RunStep(s1, begin, [Pick] + []);
    RunStep(INITIAL, DoUpsert(WEB), [begin] + ([Pick] + []));
  }

  lemma LaunchRun(s: State) returns (t: State)
    requires s.core == EMPTY.(desired := map["web" := WEB], counts := map["web" := 0])
    requires s.rec == Busy([], Some(Launch("web", 1, None)))
    ensures Runs(s, LAUNCH) && t == Final(s, LAUNCH)
    ensures t.core == Core(map["web" := WEB], map["web" := 1], map["web" := [0]], map[0 := "web"], {}, 1)
    ensures t.rec == Idle && t.ledger.staged == s.ledger.staged && t.ledger.aborted == s.ledger.aborted
  {
    var s1 := Exec(s, DoSpawn(false));
    var s2 := Exec(s1, DoRegister);
    t := Exec(s2, EndRound);
    assert s1.core.counts == map["web" := 1] && s1.core.live == map[0 := "web"];
    assert s2.core.tasks["web"] == [0];
    RunStep(s2, EndRound, []);
    RunStep(s1, DoRegister, [EndRound] + []);
    RunStep(s, DoSpawn(false), [DoRegister] + ([EndRound] + []));
  }

  lemma StopRun(s: State) returns (t: State)
    requires s.core == Core(map["web" := WEB], map["web" := 1], map["web" := [0]], map[0 := "web"], {}, 1)
    requires s.rec == Idle && s.ledger.staged == map[] && s.ledger.aborted == map[]
    ensures Runs(s, STOP) && t == Final(s, STOP)
    ensures Down(t, "web", 1) && t.rec.Idle? && t.core.desired == map["web" := WEB]
    ensures At(t.ledger.staged, "web") == 0 && At(t.ledger.aborted, "web") == 1
  {
    var s1 := Exec(s, DoCleanup("web"));
    assert 0 in s.core.tasks["web"];
    assert s1.core.cancelled == {0};
    t := Exec(s1, DoDrop(0));
    RunStep(s1, DoDrop(0), []);
    RunStep(s, DoCleanup("web"), [DoDrop(0)] + []);
  }

  /** So a stopped component is reached, and stays down as long as no second
      replica is asked for. */
  lemma StopReached()
    ensures Runs(INITIAL, PUSH + LAUNCH + STOP)
    ensures var s := Final(INITIAL, PUSH + LAUNCH + STOP);
            && Down(s, "web", 1) && s.rec.Idle? && s.core.desired == map["web" := WEB]
            && At(s.ledger.staged, "web") == 0 && At(s.ledger.aborted, "web") == 1
  {
    var pushed := PushRun();
    var launched := LaunchRun(pushed);
    var stopped := StopRun(launched);
    RunsJoin(INITIAL, PUSH, LAUNCH);
    RunsJoin(INITIAL, PUSH + LAUNCH, STOP);
  }
}
