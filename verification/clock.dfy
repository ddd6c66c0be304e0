/** `sleep`, change_year, and which resumptions touch YEAR and life_points. */
module ClockLaws {
  import opened Geometry
  import opened Registry
  import opened Tasks
  import opened Difficulty

  /** Resume one task over and over, one input per resumption, with no other
      task running in between; stops early when the task returns. */
  function ResumeTimes(cfg: Config, s: Shared, t: Task, inps: seq<Input>): Outcome
    requires ValidConfig(cfg)
    decreases |inps|
  {
    if inps == [] then Outcome(s, t, [], false)
    else
      var o := Resume(cfg, s, t, inps[0]);
      if o.done then o
      else
        var rest := ResumeTimes(cfg, o.shared, o.task, inps[1..]);
        Outcome(rest.shared, rest.task, o.spawned + rest.spawned, rest.done)
  }

  /** While its sleep lasts, a task yields without touching anything. */
  lemma {:induction false} SleepCountsDown(cfg: Config, s: Shared, t: Task, inps: seq<Input>)
    requires ValidConfig(cfg)
    requires |inps| <= t.wait
    ensures ResumeTimes(cfg, s, t, inps) == Outcome(s, t.(wait := t.wait - |inps|), [], false)
    decreases |inps|
  {
    if inps != [] {
      SleepCountsDown(cfg, s, t.(wait := t.wait - 1), inps[1..]);
    }
  }

  /** `await sleep(n)` yields exactly n times: the resumption that suspends
      is the first, the next n - 1 change nothing, and the one after that
      continues in the body the task slept in. */
  lemma SleepYieldsExactly(cfg: Config, s: Shared, t: Task, n: nat, b: Body, spawned: seq<Task>,
                           s': Shared, inps: seq<Input>, inp: Input)
    requires ValidConfig(cfg) && n >= 1 && |inps| == n - 1
    ensures var o := Suspend(s, t, n, b, spawned);
            && ResumeTimes(cfg, s', o.task, inps) == Outcome(s', Task(t.id, 0, b), [], false)
            && forall k :: 0 <= k < n - 1 ==> ResumeTimes(cfg, s', o.task, inps[..k]).task.wait > 0
  {
    var o := Suspend(s, t, n, b, spawned);
    SleepCountsDown(cfg, s', o.task, inps);
    forall k | 0 <= k < n - 1 ensures ResumeTimes(cfg, s', o.task, inps[..k]).task.wait > 0 {
      SleepCountsDown(cfg, s', o.task, inps[..k]);
    }
  }

  /** change_year, already inside its loop with `wait` yields of the current
      sleep(15) left, adds one year on every fifteenth resumption and touches
      nothing else. */
  lemma {:induction false} ClockCount(cfg: Config, s: Shared, id: nat, wait: nat, inps: seq<Input>)
    requires ValidConfig(cfg) && wait < TicksPerYear
    ensures var o := ResumeTimes(cfg, s, Task(id, wait, Clock(true)), inps);
            && !o.done && o.spawned == []
            && o.shared == s.(year := s.year + (|inps| + TicksPerYear - 1 - wait) / TicksPerYear)
            && o.task.body == Clock(true) && o.task.wait < TicksPerYear
    decreases |inps|
  {
    if inps != [] {
      var t := Task(id, wait, Clock(true));
      var o := Resume(cfg, s, t, inps[0]);
      if wait > 0 {
        assert o == Outcome(s, Task(id, wait - 1, Clock(true)), [], false);
        ClockCount(cfg, s, id, wait - 1, inps[1..]);
      } else {
        assert o == Outcome(s.(year := s.year + 1), Task(id, TicksPerYear - 1, Clock(true)), [], false);
        ClockCount(cfg, s.(year := s.year + 1), id, TicksPerYear - 1, inps[1..]);
      }
    }
  }

  /** A fresh change_year task: after n resumptions the year has gone up by
      YearsElapsed(n) — once after resumption 16, 31, 46, … */
  lemma ClockFromStart(cfg: Config, s: Shared, id: nat, inps: seq<Input>)
    requires ValidConfig(cfg)
    ensures var o := ResumeTimes(cfg, s, Task(id, 0, Clock(false)), inps);
            && !o.done
            && o.shared == s.(year := s.year + YearsElapsed(|inps|))
  {
    if inps != [] {
      var o := Resume(cfg, s, Task(id, 0, Clock(false)), inps[0]);
      assert o == Outcome(s, Task(id, TicksPerYear - 1, Clock(true)), [], false);
      ClockCount(cfg, s, id, TicksPerYear - 1, inps[1..]);
    }
  }
}
