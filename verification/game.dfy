/** `draw`: the initial COROUTINES list and the `while COROUTINES` loop. */
module Game {
  import opened Lists
  import opened Geometry
  import opened Registry
  import opened Difficulty
  import opened Tasks
  import opened Ownership
  import opened Scheduler

  /** Number of blinking stars (main.py STAR_NUM). */
  const StarCount: nat := 150

  /** Initial life_points. */
  const StartLife: int := 1

  /** The COROUTINES list `draw` builds: the stars (modelled as Idle, since
      they only draw), the ship at the rounded centre, the garbage spawner,
      change_year and show_phrase, in that order. The spawner's frame is a
      placeholder: a spawner that has not started launches nothing, and its
      first resumption draws the frame it will use. */
  function InitialWorld(cfg: Config): (w: World)
    requires ValidConfig(cfg)
    ensures |w.tasks| == StarCount + 4
    ensures forall i :: 0 <= i < |w.tasks| ==> w.tasks[i].id == i && w.tasks[i].wait == 0
    ensures w.shared.obstacles == [] && w.shared.collisions == []
    ensures w.shared.year == StartYear && w.shared.life == StartLife && w.shared.nextId == |w.tasks|
    ensures forall i :: 0 <= i < StarCount ==> w.tasks[i].body == Idle
    ensures w.tasks[StarCount].body == ShipStart(HalfRounded(cfg.rows) as real, HalfRounded(cfg.columns) as real)
    ensures w.tasks[StarCount + 1].body == Spawner(false, 0, cfg.garbageFrames[0])
    ensures w.tasks[StarCount + 2].body == Clock(false)
    ensures w.tasks[StarCount + 3].body == Idle
  {
    var stars := seq(StarCount, i requires 0 <= i < StarCount => Task(i, 0, Idle));
    var ship := Task(StarCount, 0, ShipStart(HalfRounded(cfg.rows) as real, HalfRounded(cfg.columns) as real));
    var spawner := Task(StarCount + 1, 0, Spawner(false, 0, cfg.garbageFrames[0]));
    var clock := Task(StarCount + 2, 0, Clock(false));
    var phrase := Task(StarCount + 3, 0, Idle);
    World(Shared([], [], StartYear, StartLife, StarCount + 4), stars + [ship, spawner, clock, phrase])
  }

  /** Coroutines that never return: blink, show_phrase, change_year, the
      spawner and the ship (which ends in show_game_over's endless loop). */
  predicate Endless(b: Body) {
    b.Idle? || b.Clock? || b.Spawner? || b.ShipStart? || b.ShipFlying? || b.ShipExploding?
  }

  predicate HasEndless(ts: seq<Task>) {
    exists j :: 0 <= j < |ts| && Endless(ts[j].body)
  }

  lemma InitialWorldOk(cfg: Config)
    requires ValidConfig(cfg)
    ensures Inv(InitialWorld(cfg)) && HasEndless(InitialWorld(cfg).tasks)
  {
    var w := InitialWorld(cfg);
    InjectiveDistinct(TaskIds(w.tasks));
    assert Endless(w.tasks[StarCount + 2].body);
    assert OwnedBy(w.tasks) == multiset{} by {
      NothingOwned(w.tasks);
    }
  }

  lemma {:induction false} NothingOwned(ts: seq<Task>)
    requires forall i :: 0 <= i < |ts| ==> Owns(ts[i].body) == multiset{}
    ensures OwnedBy(ts) == multiset{}
  {
    if ts != [] {
      NothingOwned(ts[1..]);
    }
  }

  /** Endless coroutines stay endless: a resumption never ends them. */
  lemma ResumeKeepsEndless(cfg: Config, s: Shared, t: Task, inp: Input)
    requires ValidConfig(cfg) && Endless(t.body)
    ensures var o := Resume(cfg, s, t, inp);
            !o.done && Endless(o.task.body)
  {
    if t.wait == 0 && t.body.ShipFlying? {
      var ShipFlying(id, row, column, rs, cs, k, space) := t.body;
      assert Resume(cfg, s, t, inp) == ShipSegment(cfg, s, t, id, row, column, rs, cs, k, space, inp);
    }
  }

  ghost predicate StepKeepsEndless(step: Step) {
    forall s: Shared, t: Task :: Endless(t.body) ==> !step(s, t).done && Endless(step(s, t).task.body)
  }

  /** A pass keeps an endless coroutine alive when its snapshot has one. */
  lemma {:induction false} PassKeepsEndless(step: Step, s: Shared, ts: seq<Task>)
    requires StepKeepsEndless(step) && HasEndless(ts)
    ensures HasEndless(RunPass(step, s, ts).kept)
  {
    var n := |ts| - 1;
    var prev := RunPass(step, s, ts[..n]);
    var o := step(prev.shared, ts[n]);
    var kept := RunPass(step, s, ts).kept;
    assert kept == prev.kept + (if o.done then [] else [o.task]);
    if Endless(ts[n].body) {
      assert kept[|kept| - 1] == o.task;
    } else {
      var j :| 0 <= j < |ts| && Endless(ts[j].body);
      assert ts[..n][j] == ts[j];
      PassKeepsEndless(step, s, ts[..n]);
      var k :| 0 <= k < |prev.kept| && Endless(prev.kept[k].body);
      assert kept[k] == prev.kept[k];
    }
  }

  /** The game loop: one tick per input until COROUTINES is empty. */
  function Run(cfg: Config, w: World, inputs: seq<Input>): World
    requires ValidConfig(cfg)
    decreases |inputs|
  {
    if w.tasks == [] || inputs == [] then w
    else Run(cfg, Tick(cfg, w, inputs[0]), inputs[1..])
  }

  /** The world invariant holds after any number of ticks. */
  lemma {:induction false} RunKeepsInv(cfg: Config, w: World, inputs: seq<Input>)
    requires ValidConfig(cfg) && Inv(w)
    ensures Inv(Run(cfg, w, inputs))
    decreases |inputs|
  {
    if w.tasks != [] && inputs != [] {
      TickKeepsInv(cfg, w, inputs[0]);
      RunKeepsInv(cfg, Tick(cfg, w, inputs[0]), inputs[1..]);
    }
  }

  /** With an endless coroutine in it, COROUTINES never empties, so the
      `while COROUTINES` loop never exits on its own. */
  lemma {:induction false} RunNeverEmpties(cfg: Config, w: World, inputs: seq<Input>)
    requires ValidConfig(cfg) && HasEndless(w.tasks)
    ensures HasEndless(Run(cfg, w, inputs).tasks) && |Run(cfg, w, inputs).tasks| > 0
    decreases |inputs|
  {
    if inputs != [] {
      var step := Stepper(cfg, inputs[0]);
      forall s: Shared, t: Task | Endless(t.body)
        ensures !step(s, t).done && Endless(step(s, t).task.body)
      {
        ResumeKeepsEndless(cfg, s, t, inputs[0]);
      }
      PassKeepsEndless(step, w.shared, w.tasks);
      var p := RunPass(step, w.shared, w.tasks);
      var k :| 0 <= k < |p.kept| && Endless(p.kept[k].body);
      assert (p.kept + p.spawned)[k] == p.kept[k];
      RunNeverEmpties(cfg, Tick(cfg, w, inputs[0]), inputs[1..]);
    }
  }

  /** YEAR never goes down and life_points never goes up during a pass. */
  lemma {:induction false} PassMonotone(cfg: Config, s: Shared, ts: seq<Task>, inp: Input)
    requires ValidConfig(cfg)
    ensures var p := RunPass(Stepper(cfg, inp), s, ts);
            s.year <= p.shared.year && p.shared.life <= s.life
  {
    if ts != [] {
      PassMonotone(cfg, s, ts[..|ts| - 1], inp);
    }
  }

  /** Over the whole run the year only grows and life only shrinks. */
  lemma {:induction false} RunMonotone(cfg: Config, w: World, inputs: seq<Input>)
    requires ValidConfig(cfg)
    ensures w.shared.year <= Run(cfg, w, inputs).shared.year
    ensures Run(cfg, w, inputs).shared.life <= w.shared.life
    decreases |inputs|
  {
    if w.tasks != [] && inputs != [] {
      PassMonotone(cfg, w.shared, w.tasks, inputs[0]);
      RunMonotone(cfg, Tick(cfg, w, inputs[0]), inputs[1..]);
    }
  }
}
