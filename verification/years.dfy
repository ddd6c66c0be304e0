/** YEAR over a whole run: only change_year moves it, and the game holds
    exactly one change_year, so the year the game shows after n ticks is the
    one a lone change_year reaches after n resumptions. */
module YearLaws {
  import opened Tasks
  import opened Difficulty
  import opened Scheduler
  import opened Game

  predicate IsClock(t: Task) { t.body.Clock? }

  /** 1 when resuming `t` ends a sleep(15) of change_year (and adds a year). */
  function Ticking(t: Task): nat
  {
    if t.wait == 0 && t.body == Clock(true) then 1 else 0
  }

  /** The change_year tasks of a list, in list order. */
  function Clocks(ts: seq<Task>): seq<Task>
  {
    if ts == [] then []
    else Clocks(ts[..|ts| - 1]) + (if IsClock(ts[|ts| - 1]) then [ts[|ts| - 1]] else [])
  }

  lemma {:induction false} ClocksAppend(a: seq<Task>, b: seq<Task>)
    ensures Clocks(a + b) == Clocks(a) + Clocks(b)
    decreases |b|
  {
    if b != [] {
      var n := |b| - 1;
      assert (a + b)[..|a + b| - 1] == a + b[..n];
      assert (a + b)[|a + b| - 1] == b[n];
      ClocksAppend(a, b[..n]);
    } else {
      assert a + b == a;
    }
  }

  lemma {:induction false} NoClocks(ts: seq<Task>)
    requires forall i :: 0 <= i < |ts| ==> !IsClock(ts[i])
    ensures Clocks(ts) == []
  {
    if ts != [] {
      NoClocks(ts[..|ts| - 1]);
    }
  }

  /** A list whose only change_year sits at position `j`. */
  lemma {:induction false} OneClock(ts: seq<Task>, j: nat)
    requires j < |ts| && IsClock(ts[j])
    requires forall i :: 0 <= i < |ts| && i != j ==> !IsClock(ts[i])
    ensures Clocks(ts) == [ts[j]]
  {
    var n := |ts| - 1;
    if j == n {
      NoClocks(ts[..n]);
    } else {
      OneClock(ts[..n], j);
    }
  }

  /** change_year after `n` resumptions: not yet started, or inside its
      sleep(15) with the yields it still owes. */
  function ClockPhase(id: nat, n: nat): (t: Task)
    ensures IsClock(t) && t.id == id
  {
    if n == 0 then Task(id, 0, Clock(false))
    else Task(id, TicksPerYear - 1 - (n - 1) % TicksPerYear, Clock(true))
  }

  /** One resumption takes phase n to phase n + 1, and adds a year exactly
      when YearsElapsed grows. */
  lemma ClockPhaseStep(id: nat, n: nat)
    ensures var c := ClockPhase(id, n);
            && (if c.wait > 0 then c.(wait := c.wait - 1) else Task(id, TicksPerYear - 1, Clock(true)))
               == ClockPhase(id, n + 1)
            && Ticking(c) == YearsElapsed(n + 1) - YearsElapsed(n)
  {
    if n > 0 {
      var q := (n - 1) / TicksPerYear;
      var r := (n - 1) % TicksPerYear;
      assert n - 1 == TicksPerYear * q + r;
      if r < TicksPerYear - 1 {
        assert n == TicksPerYear * q + (r + 1);
        assert n / TicksPerYear == q && n % TicksPerYear == r + 1;
      } else {
        assert n == TicksPerYear * (q + 1);
        assert n / TicksPerYear == q + 1 && n % TicksPerYear == 0;
      }
    }
  }

  /** A step whose year changes by Ticking of the resumed task. */
  ghost predicate StepCountsYears(step: Step) {
    forall s: Shared, t: Task :: step(s, t).shared.year == s.year + Ticking(t)
  }

  /** A step that takes change_year `c` to `c'`, whatever the shared state,
      and never makes or appends another change_year. */
  ghost predicate StepAdvancesClock(step: Step, c: Task, c': Task) {
    && (forall s: Shared :: !step(s, c).done && step(s, c).task == c')
    && (forall s: Shared, t: Task :: !IsClock(t) ==> step(s, t).done || !IsClock(step(s, t).task))
    && (forall s: Shared, t: Task :: Clocks(step(s, t).spawned) == [])
  }

  lemma StepperCountsYears(cfg: Config, inp: Input)
    requires ValidConfig(cfg)
    ensures StepCountsYears(Stepper(cfg, inp))
  {
    forall s: Shared, t: Task ensures Stepper(cfg, inp)(s, t).shared.year == s.year + Ticking(t) {
      var o := Resume(cfg, s, t, inp);
    }
  }

  lemma StepperAdvancesClock(cfg: Config, inp: Input, id: nat, n: nat)
    requires ValidConfig(cfg)
    ensures StepAdvancesClock(Stepper(cfg, inp), ClockPhase(id, n), ClockPhase(id, n + 1))
  {
    var step := Stepper(cfg, inp);
    ClockPhaseStep(id, n);
    forall s: Shared ensures !step(s, ClockPhase(id, n)).done && step(s, ClockPhase(id, n)).task == ClockPhase(id, n + 1) {
      var o := Resume(cfg, s, ClockPhase(id, n), inp);
    }
    forall s: Shared, t: Task ensures Clocks(step(s, t).spawned) == [] {
      NoClocks(Resume(cfg, s, t, inp).spawned);
    }
  }

  /** One pass over a snapshot holding at most the change_year `c`: the year
      grows by what `c`'s resumption adds, `c` is replaced by `c'`, and no
      other change_year appears. */
  lemma {:induction false} PassYears(step: Step, s: Shared, ts: seq<Task>, c: Task, c': Task)
    requires StepCountsYears(step) && StepAdvancesClock(step, c, c') && IsClock(c) && IsClock(c')
    requires Clocks(ts) == [] || Clocks(ts) == [c]
    ensures var p := RunPass(step, s, ts);
            && Clocks(p.spawned) == []
            && (Clocks(ts) == [] ==> Clocks(p.kept) == [] && p.shared.year == s.year)
            && (Clocks(ts) == [c] ==> Clocks(p.kept) == [c'] && p.shared.year == s.year + Ticking(c))
  {
    if ts != [] {
      var n := |ts| - 1;
      var t := ts[n];
      var prev := RunPass(step, s, ts[..n]);
      var o := step(prev.shared, t);
      var keep := if o.done then [] else [o.task];
      assert RunPass(step, s, ts) == Pass(o.shared, prev.kept + keep, prev.spawned + o.spawned);
      ClocksAppend(prev.kept, keep);
      ClocksAppend(prev.spawned, o.spawned);
      assert Clocks(ts) == Clocks(ts[..n]) + (if IsClock(t) then [t] else []);
      assert [o.task][..0] == [];
      if IsClock(t) {
        assert Clocks(ts) == [c] && |Clocks(ts[..n])| == 0;
        assert Clocks(ts) == [t];
        PassYears(step, s, ts[..n], c, c');
        assert Clocks(keep) == [c'];
      } else {
        PassYears(step, s, ts[..n], c, c');
        assert Clocks(keep) == [];
      }
    }
  }

  /** Over a run in which change_year has already been resumed n times, YEAR
      grows by the increments it makes on its next resumptions. */
  lemma {:induction false} RunYears(cfg: Config, w: World, inputs: seq<Input>, id: nat, n: nat)
    requires ValidConfig(cfg) && Clocks(w.tasks) == [ClockPhase(id, n)]
    ensures Run(cfg, w, inputs).shared.year == w.shared.year + YearsElapsed(n + |inputs|) - YearsElapsed(n)
    decreases |inputs|
  {
    if inputs != [] {
      assert w.tasks != [];
      var step := Stepper(cfg, inputs[0]);
      StepperCountsYears(cfg, inputs[0]);
      StepperAdvancesClock(cfg, inputs[0], id, n);
      PassYears(step, w.shared, w.tasks, ClockPhase(id, n), ClockPhase(id, n + 1));
      var p := RunPass(step, w.shared, w.tasks);
      ClocksAppend(p.kept, p.spawned);
      ClockPhaseStep(id, n);
      RunYears(cfg, Tick(cfg, w, inputs[0]), inputs[1..], id, n + 1);
    }
  }

  /** The game's calendar: after n ticks from `draw`'s list YEAR is
      1957 + YearsElapsed(n), one year per 15 ticks after the first. */
  lemma YearsFromStart(cfg: Config, inputs: seq<Input>)
    requires ValidConfig(cfg)
    ensures Run(cfg, InitialWorld(cfg), inputs).shared.year == StartYear + YearsElapsed(|inputs|)
  {
    var w := InitialWorld(cfg);
    OneClock(w.tasks, StarCount + 2);
    assert w.tasks[StarCount + 2] == ClockPhase(StarCount + 2, 0);
    RunYears(cfg, w, inputs, StarCount + 2, 0);
  }
}
