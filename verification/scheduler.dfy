/** The scheduler loop of `draw`: each tick resumes every task of a snapshot
    of COROUTINES in list order, removes the ones that return, and leaves the
    tasks appended meanwhile for the next tick. */
module Scheduler {
  import opened Lists
  import opened Registry
  import opened Tasks
  import opened Ownership

  /** The globals plus COROUTINES. */
  datatype World = World(shared: Shared, tasks: seq<Task>)

  /** Progress through one tick's snapshot: the shared state so far, the
      resumed tasks still alive, and the tasks appended so far. */
  datatype Pass = Pass(shared: Shared, kept: seq<Task>, spawned: seq<Task>)

  /** One resumption of one coroutine against the shared state. */
  type Step = (Shared, Task) -> Outcome

  /** The step of this game: `coroutine.send(None)` with the tick's input. */
  function Stepper(cfg: Config, inp: Input): Step
    requires ValidConfig(cfg)
  {
    (s: Shared, t: Task) => Resume(cfg, s, t, inp)
  }

  /** Resume `t` against the state reached so far. */
  function Extend(step: Step, p: Pass, t: Task): Pass
  {
    var o := step(p.shared, t);
    Pass(o.shared, p.kept + (if o.done then [] else [o.task]), p.spawned + o.spawned)
  }

  /** Resume the tasks of `snapshot` one after the other, in order. */
  function RunPass(step: Step, s: Shared, snapshot: seq<Task>): Pass
  {
    if snapshot == [] then Pass(s, [], [])
    else Extend(step, RunPass(step, s, snapshot[..|snapshot| - 1]), snapshot[|snapshot| - 1])
  }

  /** One pass of `while COROUTINES: for coroutine in COROUTINES.copy(): …`. */
  function TickWith(step: Step, w: World): World
  {
    var p := RunPass(step, w.shared, w.tasks);
    World(p.shared, p.kept + p.spawned)
  }

  function Tick(cfg: Config, w: World, inp: Input): World
    requires ValidConfig(cfg)
  {
    TickWith(Stepper(cfg, inp), w)
  }

  /** The same tick written as the source's loop over a copy of the list,
      removing a finished coroutine from the live list and appending spawned
      ones at its end. */
  method RunTick(step: Step, w: World) returns (w': World)
    ensures w' == TickWith(step, w)
  {
    var snapshot := w.tasks;
    var coroutines := w.tasks;
    var shared := w.shared;
    var kept := 0;
    ghost var p := Pass(w.shared, [], []);
    for i := 0 to |snapshot|
      invariant p == RunPass(step, w.shared, snapshot[..i])
      invariant shared == p.shared && kept == |p.kept|
      invariant coroutines == p.kept + snapshot[i..] + p.spawned
    {
      var t := snapshot[i];
      var o := step(shared, t);
      RunPassSnoc(step, w.shared, snapshot, i);
      assert snapshot[i..] == [t] + snapshot[i + 1..];
      coroutines, kept := Reschedule(coroutines, kept, o, p.kept, t, snapshot[i + 1..], p.spawned);
      shared := o.shared;
      p := Extend(step, p, t);
    }
    assert snapshot[..|snapshot|] == snapshot;
    w' := World(shared, coroutines);
  }

  lemma RunPassSnoc(step: Step, s: Shared, snapshot: seq<Task>, i: nat)
    requires i < |snapshot|
    ensures RunPass(step, s, snapshot[..i + 1]) == Extend(step, RunPass(step, s, snapshot[..i]), snapshot[i])
  {
    assert snapshot[..i + 1][..i] == snapshot[..i];
  }

  /** `COROUTINES.remove(coroutine)` when the resumption returned, then the
      appends the resumption made. */
  method Reschedule(coroutines: seq<Task>, kept: nat, o: Outcome,
                    ghost before: seq<Task>, ghost t: Task, ghost rest: seq<Task>, ghost spawned: seq<Task>)
    returns (coroutines': seq<Task>, kept': nat)
    requires coroutines == before + ([t] + rest) + spawned && kept == |before|
    ensures var keep := if o.done then [] else [o.task];
            && coroutines' == (before + keep) + rest + (spawned + o.spawned)
            && kept' == |before + keep|
  {
    assert coroutines[..kept] == before;
    assert coroutines[kept + 1..] == rest + spawned;
    if o.done {
      coroutines' := coroutines[..kept] + coroutines[kept + 1..];
      kept' := kept;
    } else {
      coroutines' := coroutines[kept := o.task];
      assert coroutines' == before + [o.task] + rest + spawned;
      kept' := kept + 1;
    }
    coroutines' := coroutines' + o.spawned;
  }

  /** Obstacles held by the tasks of `ts`, with multiplicity. */
  function OwnedBy(ts: seq<Task>): multiset<nat>
  {
    if ts == [] then multiset{} else Owns(ts[0].body) + OwnedBy(ts[1..])
  }

  lemma {:induction false} OwnedByAppend(a: seq<Task>, b: seq<Task>)
    ensures OwnedBy(a + b) == OwnedBy(a) + OwnedBy(b)
  {
    if a == [] {
      assert a + b == b;
    } else {
      assert (a + b)[1..] == a[1..] + b;
      OwnedByAppend(a[1..], b);
    }
  }

  lemma {:induction false} NewbornOwnNothing(ts: seq<Task>, lo: nat, hi: nat)
    requires Newborn(ts, lo, hi)
    ensures OwnedBy(ts) == multiset{}
  {
    if ts != [] {
      assert Newborn(ts[1..], lo, hi) by {
        assert TaskIds(ts) == [ts[0].id] + TaskIds(ts[1..]);
        forall x ensures Occurrences(TaskIds(ts[1..]), x) <= 1 {
          assert Occurrences(TaskIds(ts), x) <= 1;
        }
      }
      NewbornOwnNothing(ts[1..], lo, hi);
    }
  }

  lemma TaskIdsAppend(a: seq<Task>, b: seq<Task>)
    ensures TaskIds(a + b) == TaskIds(a) + TaskIds(b)
  {
  }

  /** What every resumption keeps: see ResumeKeepsOwnership. */
  ghost predicate StepKeepsOwnership(step: Step) {
    forall s: Shared, t: Task :: RegistryOk(s) && Owns(t.body) <= multiset(Ids(s.obstacles))
      ==> Trades(s, t, Owns(t.body), step(s, t))
  }

  lemma StepperKeepsOwnership(cfg: Config, inp: Input)
    requires ValidConfig(cfg)
    ensures StepKeepsOwnership(Stepper(cfg, inp))
  {
    forall s: Shared, t: Task | RegistryOk(s) && Owns(t.body) <= multiset(Ids(s.obstacles))
      ensures Trades(s, t, Owns(t.body), Stepper(cfg, inp)(s, t))
    {
      ResumeKeepsOwnership(cfg, s, t, inp);
    }
  }

  /** The world invariant: the registry is well formed, its obstacles are
      exactly those the live tasks hold (each by one task), and the tasks'
      identities are distinct and already handed out. */
  ghost predicate Inv(w: World) {
    && RegistryOk(w.shared)
    && OwnedBy(w.tasks) == multiset(Ids(w.shared.obstacles))
    && Distinct(TaskIds(w.tasks))
    && (forall j :: 0 <= j < |w.tasks| ==> w.tasks[j].id < w.shared.nextId)
  }

  /** The live list while the tick is at snapshot position `i`. */
  function Live(p: Pass, snapshot: seq<Task>, i: nat): seq<Task>
    requires i <= |snapshot|
  {
    p.kept + snapshot[i..] + p.spawned
  }

  /** The invariant half-way through a tick. */
  ghost predicate PassOk(s0: Shared, snapshot: seq<Task>, i: nat, p: Pass)
    requires i <= |snapshot|
  {
    && RegistryOk(p.shared)
    && s0.nextId <= p.shared.nextId
    && OwnedBy(p.kept) + OwnedBy(snapshot[i..]) == multiset(Ids(p.shared.obstacles))
    && OwnedBy(p.spawned) == multiset{}
    && Distinct(TaskIds(Live(p, snapshot, i)))
    && (forall x :: x in TaskIds(Live(p, snapshot, i)) ==> x < p.shared.nextId)
    && (forall x :: x in TaskIds(p.spawned) ==> s0.nextId <= x)
  }

  /** Identities below `bound` that were distinct stay distinct when some are
      dropped and distinct ones from `bound` upwards are added. */
  lemma DistinctGrow(before: seq<nat>, sub: seq<nat>, add: seq<nat>, bound: nat)
    requires Distinct(before) && multiset(sub) <= multiset(before) && Distinct(add)
    requires forall x :: x in before ==> x < bound
    requires forall x :: x in add ==> bound <= x
    ensures Distinct(sub + add)
    ensures forall x :: x in sub ==> x < bound
  {
    assert multiset(sub + add) == multiset(sub) + multiset(add);
    forall x ensures Occurrences(sub + add, x) <= 1 {
      assert Occurrences(before, x) <= 1 && Occurrences(add, x) <= 1;
      if x in multiset(add) {
        assert x in add;
        assert x !in before;
      }
    }
    forall x | x in sub ensures x < bound {
      assert x in multiset(sub);
      assert multiset(sub)[x] <= multiset(before)[x];
      assert x in multiset(before);
      assert x in before;
    }
  }

  /** The live identities after a resumption: the old ones, less the task's
      own when it finished, plus the newborns at the end. */
  lemma LiveIdsStep(kept: seq<Task>, t: Task, rest: seq<Task>, spawned: seq<Task>, keep: seq<Task>, newborn: seq<Task>)
    requires keep == [] || (|keep| == 1 && keep[0].id == t.id)
    ensures multiset(TaskIds(kept + keep + rest + spawned)) <= multiset(TaskIds(kept + ([t] + rest) + spawned))
    ensures TaskIds(kept + keep + rest + (spawned + newborn)) == TaskIds(kept + keep + rest + spawned) + TaskIds(newborn)
  {
    SplitIds4(kept, keep, rest, spawned);
    SplitIds4(kept, [t], rest, spawned);
    assert kept + ([t] + rest) + spawned == kept + [t] + rest + spawned;
    assert TaskIds(keep) == [] || TaskIds(keep) == [t.id];
    assert TaskIds([t]) == [t.id];
    DropOne(TaskIds(kept), TaskIds(keep), TaskIds(rest), TaskIds(spawned), t.id);
    TaskIdsAppend(kept + keep + rest + spawned, newborn);
    assert kept + keep + rest + (spawned + newborn) == (kept + keep + rest + spawned) + newborn;
  }

  lemma DropOne(a: seq<nat>, keep: seq<nat>, c: seq<nat>, d: seq<nat>, x: nat)
    requires keep == [] || keep == [x]
    ensures multiset(a + keep + c + d) <= multiset(a + [x] + c + d)
  {
  }

  lemma SplitIds4(a: seq<Task>, b: seq<Task>, c: seq<Task>, d: seq<Task>)
    ensures TaskIds(a + b + c + d) == TaskIds(a) + TaskIds(b) + TaskIds(c) + TaskIds(d)
  {
    TaskIdsAppend(a + b + c, d);
    TaskIdsAppend(a + b, c);
    TaskIdsAppend(a, b);
  }

  /** Bookkeeping of one resumption: the task gives up `own` and keeps `hold`. */
  lemma Rebalance(kept: multiset<nat>, keep: multiset<nat>, rest: multiset<nat>, own: multiset<nat>,
                  hold: multiset<nat>, r: multiset<nat>, r': multiset<nat>)
    requires r' + own == r + hold
    requires r == kept + own + rest
    requires keep == hold
    ensures kept + keep + rest == r'
  {
    forall x ensures (kept + keep + rest)[x] == r'[x] {
      assert (r' + own)[x] == (r + hold)[x];
    }
  }

  /** The obstacle half of PassOkStep. */
  lemma PassOwnedStep(kept: seq<Task>, t: Task, rest: seq<Task>, spawned: seq<Task>, before: Shared, o: Outcome)
    requires OwnedBy(kept) + OwnedBy([t] + rest) == multiset(Ids(before.obstacles))
    requires OwnedBy(spawned) == multiset{}
    requires Trades(before, t, Owns(t.body), o)
    ensures OwnedBy(kept + (if o.done then [] else [o.task])) + OwnedBy(rest) == multiset(Ids(o.shared.obstacles))
    ensures OwnedBy(spawned + o.spawned) == multiset{}
  {
    var keep := if o.done then [] else [o.task];
    assert OwnedBy([t] + rest) == Owns(t.body) + OwnedBy(rest) by {
      assert ([t] + rest)[1..] == rest;
    }
    OwnedByAppend(kept, keep);
    OwnedByAppend(spawned, o.spawned);
    NewbornOwnNothing(o.spawned, before.nextId, o.shared.nextId);
    assert OwnedBy(keep) == Holds(o) by {
      if !o.done {
        assert OwnedBy(keep) == Owns(o.task.body) + OwnedBy([]);
      }
    }
    Rebalance(OwnedBy(kept), OwnedBy(keep), OwnedBy(rest), Owns(t.body), Holds(o),
              multiset(Ids(before.obstacles)), multiset(Ids(o.shared.obstacles)));
  }

  /** The identity half of PassOkStep. */
  lemma PassIdsStep(kept: seq<Task>, t: Task, rest: seq<Task>, spawned: seq<Task>, s0: Shared, before: Shared, o: Outcome)
    requires Distinct(TaskIds(kept + ([t] + rest) + spawned))
    requires forall x :: x in TaskIds(kept + ([t] + rest) + spawned) ==> x < before.nextId
    requires forall x :: x in TaskIds(spawned) ==> s0.nextId <= x
    requires s0.nextId <= before.nextId
    requires Trades(before, t, Owns(t.body), o)
    ensures var live := kept + (if o.done then [] else [o.task]) + rest + (spawned + o.spawned);
            && Distinct(TaskIds(live))
            && (forall x :: x in TaskIds(live) ==> x < o.shared.nextId)
            && (forall x :: x in TaskIds(spawned + o.spawned) ==> s0.nextId <= x)
  {
    var keep := if o.done then [] else [o.task];
    LiveIdsStep(kept, t, rest, spawned, keep, o.spawned);
    DistinctGrow(TaskIds(kept + ([t] + rest) + spawned), TaskIds(kept + keep + rest + spawned), TaskIds(o.spawned),
                 before.nextId);
    TaskIdsAppend(spawned, o.spawned);
  }

  /** Resuming the next snapshot task keeps the half-way invariant. */
  lemma PassOkStep(step: Step, s0: Shared, snapshot: seq<Task>, i: nat, p: Pass)
    requires StepKeepsOwnership(step)
    requires i < |snapshot| && PassOk(s0, snapshot, i, p)
    ensures PassOk(s0, snapshot, i + 1, Extend(step, p, snapshot[i]))
  {
    var t := snapshot[i];
    var rest := snapshot[i + 1..];
    assert snapshot[i..] == [t] + rest;
    var o := step(p.shared, t);
    assert Trades(p.shared, t, Owns(t.body), o);
    var keep := if o.done then [] else [o.task];
    var p' := Extend(step, p, t);
    assert p' == Pass(o.shared, p.kept + keep, p.spawned + o.spawned);
    PassOwnedStep(p.kept, t, rest, p.spawned, p.shared, o);
    assert Live(p, snapshot, i) == p.kept + ([t] + rest) + p.spawned;
    assert Live(p', snapshot, i + 1) == p.kept + keep + rest + (p.spawned + o.spawned);
    PassIdsStep(p.kept, t, rest, p.spawned, s0, p.shared, o);
  }

  /** The half-way invariant holds at every position of the snapshot. */
  lemma {:induction false} PassOkAll(step: Step, w: World, i: nat)
    requires StepKeepsOwnership(step) && Inv(w)
    requires i <= |w.tasks|
    ensures PassOk(w.shared, w.tasks, i, RunPass(step, w.shared, w.tasks[..i]))
  {
    if i == 0 {
      PassOkStart(step, w);
    } else {
      PassOkAll(step, w, i - 1);
      PassOkNext(step, w, i - 1, RunPass(step, w.shared, w.tasks[..i - 1]));
    }
  }

  lemma PassOkStart(step: Step, w: World)
    requires Inv(w)
    ensures PassOk(w.shared, w.tasks, 0, RunPass(step, w.shared, w.tasks[..0]))
  {
    assert w.tasks[..0] == [];
    assert Live(Pass(w.shared, [], []), w.tasks, 0) == w.tasks;
  }

  lemma PassOkNext(step: Step, w: World, i: nat, p: Pass)
    requires StepKeepsOwnership(step)
    requires i < |w.tasks| && p == RunPass(step, w.shared, w.tasks[..i])
    requires PassOk(w.shared, w.tasks, i, p)
    ensures PassOk(w.shared, w.tasks, i + 1, RunPass(step, w.shared, w.tasks[..i + 1]))
  {
    RunPassSnoc(step, w.shared, w.tasks, i);
    PassOkStep(step, w.shared, w.tasks, i, p);
  }

  /** The full pass, with the facts the tick lemmas need. */
  lemma PassDone(step: Step, w: World, p: Pass)
    requires StepKeepsOwnership(step) && Inv(w)
    requires p == RunPass(step, w.shared, w.tasks)
    ensures PassOk(w.shared, w.tasks, |w.tasks|, p)
  {
    PassOkAll(step, w, |w.tasks|);
    assert w.tasks[..|w.tasks|] == w.tasks;
  }

  /** The invariant at the end of a pass is the world invariant of the next tick. */
  lemma PassOkEnd(s0: Shared, snapshot: seq<Task>, p: Pass)
    requires PassOk(s0, snapshot, |snapshot|, p)
    ensures Inv(World(p.shared, p.kept + p.spawned))
  {
    assert Live(p, snapshot, |snapshot|) == p.kept + p.spawned;
    OwnedByAppend(p.kept, p.spawned);
    assert OwnedBy(snapshot[|snapshot|..]) == multiset{};
    var ts := p.kept + p.spawned;
    forall j | 0 <= j < |ts| ensures ts[j].id < p.shared.nextId {
      assert TaskIds(ts)[j] == ts[j].id;
      assert TaskIds(ts)[j] in TaskIds(Live(p, snapshot, |snapshot|));
    }
  }

  lemma TickWithKeepsInv(step: Step, w: World)
    requires StepKeepsOwnership(step) && Inv(w)
    ensures Inv(TickWith(step, w))
  {
    var p := RunPass(step, w.shared, w.tasks);
    PassDone(step, w, p);
    PassOkEnd(w.shared, w.tasks, p);
  }

  /** One tick keeps the world invariant: every registered obstacle is held
      by exactly one live coroutine, so each unguarded `OBSTACLES.remove`
      finds its obstacle, and identities stay distinct. */
  lemma TickKeepsInv(cfg: Config, w: World, inp: Input)
    requires ValidConfig(cfg) && Inv(w)
    ensures Inv(Tick(cfg, w, inp))
  {
    StepperKeepsOwnership(cfg, inp);
    TickWithKeepsInv(Stepper(cfg, inp), w);
  }

  // ------------------------------------------------------------ fates

  /** A resumption never changes which coroutine it is. */
  ghost predicate StepKeepsIdentity(step: Step) {
    forall s: Shared, t: Task :: step(s, t).task.id == t.id
  }

  lemma StepperKeepsIdentity(cfg: Config, inp: Input)
    requires ValidConfig(cfg)
    ensures StepKeepsIdentity(Stepper(cfg, inp))
  {
  }

  /** The tasks still alive after a pass all come from its snapshot. */
  lemma {:induction false} KeptFromSnapshot(step: Step, s: Shared, ts: seq<Task>)
    requires StepKeepsIdentity(step)
    ensures |RunPass(step, s, ts).kept| <= |ts|
    ensures forall x :: x in TaskIds(RunPass(step, s, ts).kept) ==> x in TaskIds(ts)
  {
    if ts != [] {
      var n := |ts| - 1;
      var prev := RunPass(step, s, ts[..n]);
      KeptFromSnapshot(step, s, ts[..n]);
      var o := step(prev.shared, ts[n]);
      var keep := if o.done then [] else [o.task];
      TaskIdsAppend(prev.kept, keep);
      assert TaskIds(ts) == TaskIds(ts[..n]) + [ts[n].id];
    }
  }

  /** The `i`-th task of the snapshot is still alive after the pass exactly
      when its own resumption did not return. */
  lemma {:induction false} KeptIff(step: Step, s: Shared, ts: seq<Task>, j: nat)
    requires StepKeepsIdentity(step) && Distinct(TaskIds(ts)) && j < |ts|
    ensures ts[j].id in TaskIds(RunPass(step, s, ts).kept)
            <==> !step(RunPass(step, s, ts[..j]).shared, ts[j]).done
  {
    var n := |ts| - 1;
    var prev := RunPass(step, s, ts[..n]);
    var o := step(prev.shared, ts[n]);
    var keep := if o.done then [] else [o.task];
    assert RunPass(step, s, ts).kept == prev.kept + keep;
    assert o.task.id == ts[n].id;
    assert TaskIds(keep) == if o.done then [] else [ts[n].id];
    TaskIdsAppend(prev.kept, keep);
    assert TaskIds(ts[..n]) == TaskIds(ts)[..n];
    DistinctPrefix(TaskIds(ts), n);
    KeptFromSnapshot(step, s, ts[..n]);
    if j == n {
      assert ts[..j] == ts[..n];
      forall k | 0 <= k < n ensures TaskIds(ts[..n])[k] != ts[n].id {
        DistinctIndices(TaskIds(ts), k, n);
      }
      assert ts[n].id !in TaskIds(ts[..n]);
      assert ts[n].id !in TaskIds(prev.kept);
    } else {
      KeptIff(step, s, ts[..n], j);
      assert ts[..n][..j] == ts[..j] && ts[..n][j] == ts[j];
      DistinctIndices(TaskIds(ts), j, n);
    }
  }

  /** A tick removes a coroutine exactly when its resumption returned, and
      only the coroutines it spawned are new; nothing spawned was resumed. */
  lemma TickFates(cfg: Config, w: World, inp: Input, j: nat)
    requires ValidConfig(cfg) && Inv(w) && j < |w.tasks|
    ensures var step := Stepper(cfg, inp);
            w.tasks[j].id in TaskIds(Tick(cfg, w, inp).tasks)
            <==> !Resume(cfg, RunPass(step, w.shared, w.tasks[..j]).shared, w.tasks[j], inp).done
  {
    var step := Stepper(cfg, inp);
    var p := RunPass(step, w.shared, w.tasks);
    StepperKeepsOwnership(cfg, inp);
    StepperKeepsIdentity(cfg, inp);
    PassDone(step, w, p);
    KeptIff(step, w.shared, w.tasks, j);
    TaskIdsAppend(p.kept, p.spawned);
    assert w.tasks[j].id < w.shared.nextId by {
      assert TaskIds(w.tasks)[j] == w.tasks[j].id;
    }
  }

  /** Everything a tick appends is new: identities from the old counter on,
      none of them a task of the snapshot, all at the end of the list. */
  lemma TickDefersSpawned(cfg: Config, w: World, inp: Input)
    requires ValidConfig(cfg) && Inv(w)
    ensures var p := RunPass(Stepper(cfg, inp), w.shared, w.tasks);
            && Tick(cfg, w, inp).tasks == p.kept + p.spawned
            && |p.kept| <= |w.tasks|
            && (forall x :: x in TaskIds(p.spawned) ==> w.shared.nextId <= x && x !in TaskIds(w.tasks))
  {
    var step := Stepper(cfg, inp);
    var p := RunPass(step, w.shared, w.tasks);
    StepperKeepsOwnership(cfg, inp);
    StepperKeepsIdentity(cfg, inp);
    PassDone(step, w, p);
    KeptFromSnapshot(step, w.shared, w.tasks);
  }

  /** A coroutine that has left COROUTINES never comes back: identities are
      not handed out twice. */
  lemma TickNeverRevives(cfg: Config, w: World, inp: Input, x: nat)
    requires ValidConfig(cfg) && Inv(w)
    requires x < w.shared.nextId && x !in TaskIds(w.tasks)
    ensures x !in TaskIds(Tick(cfg, w, inp).tasks)
  {
    var step := Stepper(cfg, inp);
    var p := RunPass(step, w.shared, w.tasks);
    TickDefersSpawned(cfg, w, inp);
    KeptFromSnapshot(step, w.shared, w.tasks);
    TaskIdsAppend(p.kept, p.spawned);
  }
}
