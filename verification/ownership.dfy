/** The registry discipline of one resumption: a task only ever registers a
    new obstacle of its own, moves its own, and removes its own, so every
    registered obstacle keeps exactly one owner. */
module Ownership {
  import opened Lists
  import opened Registry
  import opened Tasks

  /** Registry identities are distinct and all below the next identity. */
  ghost predicate RegistryOk(s: Shared) {
    && Distinct(Ids(s.obstacles))
    && forall x :: x in Ids(s.obstacles) ==> x < s.nextId
  }

  function TaskIds(ts: seq<Task>): seq<nat>
  {
    seq(|ts|, i requires 0 <= i < |ts| => ts[i].id)
  }

  /** Tasks appended during a resumption: distinct new identities drawn from
      [lo, hi), and none of them holds an obstacle yet. */
  ghost predicate Newborn(ts: seq<Task>, lo: nat, hi: nat) {
    && Distinct(TaskIds(ts))
    && (forall i :: 0 <= i < |ts| ==> lo <= ts[i].id < hi)
    && (forall i :: 0 <= i < |ts| ==> Owns(ts[i].body) == multiset{})
  }

  lemma DropOwned(s: Shared, id: nat)
    requires RegistryOk(s) && id in Ids(s.obstacles)
    ensures RegistryOk(Drop(s, id))
    ensures multiset(Ids(Drop(s, id).obstacles)) + multiset{id} == multiset(Ids(s.obstacles))
    ensures id !in Ids(Drop(s, id).obstacles)
  {
    var ids := Ids(s.obstacles);
    var r := Ids(Drop(s, id).obstacles);
    assert r == RemoveFirst(ids, id);
    RemoveFirstOfDistinct(ids, id);
    assert id in multiset(ids);
    assert multiset(r) == multiset(ids) - multiset{id};
  }

  lemma RegisterOk(s: Shared, tag: Tag, row: real, column: real, size: Geometry.Size)
    requires RegistryOk(s)
    ensures RegistryOk(Register(s, tag, row, column, size))
    ensures multiset(Ids(Register(s, tag, row, column, size).obstacles)) == multiset(Ids(s.obstacles)) + multiset{s.nextId}
  {
    var s' := Register(s, tag, row, column, size);
    assert s.nextId !in Ids(s.obstacles);
    forall x ensures Occurrences(Ids(s'.obstacles), x) <= 1 {
      assert Occurrences(Ids(s.obstacles), x) <= 1;
    }
  }

  /** Registering a new obstacle and dropping it again in the same
      resumption leaves the registry's identities as they were. */
  lemma RegisterThenDrop(s: Shared, tag: Tag, row: real, column: real, size: Geometry.Size)
    requires RegistryOk(s)
    ensures var d := Drop(Register(s, tag, row, column, size), s.nextId);
            RegistryOk(d) && multiset(Ids(d.obstacles)) == multiset(Ids(s.obstacles)) && d.nextId == s.nextId + 1
  {
    RegisterOk(s, tag, row, column, size);
    DropOwned(Register(s, tag, row, column, size), s.nextId);
  }

  /** Outcome `o` of resuming `t` in `s`, where `t` held `owned`, keeps the
      registry well formed and trades obstacles only with `t`: what `t` held
      plus what the registry had equals what the registry has plus what `t`
      holds now; spawned tasks are new and hold nothing. */
  ghost predicate Trades(s: Shared, t: Task, owned: multiset<nat>, o: Outcome) {
    && RegistryOk(o.shared)
    && s.nextId <= o.shared.nextId
    && multiset(Ids(o.shared.obstacles)) + owned == multiset(Ids(s.obstacles)) + Holds(o)
    && o.task.id == t.id
    && Newborn(o.spawned, s.nextId, o.shared.nextId)
  }

  /** One resumption of any task obeys the registry discipline. */
  lemma ResumeKeepsOwnership(cfg: Config, s: Shared, t: Task, inp: Input)
    requires ValidConfig(cfg)
    requires RegistryOk(s)
    requires Owns(t.body) <= multiset(Ids(s.obstacles))
    ensures Trades(s, t, Owns(t.body), Resume(cfg, s, t, inp))
  {
    if t.wait > 0 {
      assert Resume(cfg, s, t, inp) == Outcome(s, t.(wait := t.wait - 1), [], false);
    } else if t.body.GarbageStart? || t.body.GarbageFalling? || t.body.GarbageBlast? {
      GarbageResumeKeepsOwnership(cfg, s, t, inp);
    } else if t.body.ShotArmed? || t.body.ShotFlying? {
      ShotResumeKeepsOwnership(cfg, s, t, inp);
    } else if t.body.ShipStart? || t.body.ShipFlying? || t.body.ShipExploding? {
      ShipResumeKeepsOwnership(cfg, s, t, inp);
    } else {
      BackgroundResumeKeepsOwnership(cfg, s, t, inp);
    }
  }

  lemma BackgroundResumeKeepsOwnership(cfg: Config, s: Shared, t: Task, inp: Input)
    requires ValidConfig(cfg) && RegistryOk(s) && t.wait == 0
    requires t.body.Idle? || t.body.Clock? || t.body.Spawner?
    ensures Trades(s, t, Owns(t.body), Resume(cfg, s, t, inp))
  {
    var o := Resume(cfg, s, t, inp);
    match t.body
    case Idle =>
      assert o == Suspend(s, t, 1, Idle, []);
    case Clock(started) =>
      assert o == ClockSegment(s, t, started);
      assert o.shared.obstacles == s.obstacles && o.shared.nextId == s.nextId;
    case Spawner(started, start, frame) =>
      assert o == SpawnerSegment(cfg, s, t, started, start, frame, inp);
      SpawnerKeepsOwnership(cfg, s, t, started, start, frame, inp);
  }

  lemma GarbageResumeKeepsOwnership(cfg: Config, s: Shared, t: Task, inp: Input)
    requires ValidConfig(cfg) && RegistryOk(s) && t.wait == 0
    requires Owns(t.body) <= multiset(Ids(s.obstacles))
    requires t.body.GarbageStart? || t.body.GarbageFalling? || t.body.GarbageBlast?
    ensures Trades(s, t, Owns(t.body), Resume(cfg, s, t, inp))
  {
    var o := Resume(cfg, s, t, inp);
    match t.body
    case GarbageStart(lane, frame, speed) =>
      assert o == GarbageStartSegment(cfg, s, t, lane, frame, speed);
      GarbageStartKeepsOwnership(cfg, s, t, lane, frame, speed);
    case GarbageFalling(id, row, lane, frame, speed) =>
      assert o == GarbageSegment(cfg, s, t, id, row, lane, frame, speed);
      assert id in multiset(Ids(s.obstacles));
      GarbageKeepsOwnership(cfg, s, t, id, row, lane, frame, speed);
    case GarbageBlast =>
      assert o == Finish(s, t, []);
  }

  lemma ShotResumeKeepsOwnership(cfg: Config, s: Shared, t: Task, inp: Input)
    requires ValidConfig(cfg) && RegistryOk(s) && t.wait == 0
    requires Owns(t.body) <= multiset(Ids(s.obstacles))
    requires t.body.ShotArmed? || t.body.ShotFlying?
    ensures Trades(s, t, Owns(t.body), Resume(cfg, s, t, inp))
  {
    var o := Resume(cfg, s, t, inp);
    match t.body
    case ShotArmed(row, column, rs, cs) =>
      assert o == ShotArmedSegment(cfg, s, t, row, column, rs, cs);
      ShotArmedKeepsOwnership(cfg, s, t, row, column, rs, cs);
    case ShotFlying(id, row, column, rs, cs) =>
      assert o == ShotSegment(cfg, s, t, id, row, column, rs, cs);
      assert id in multiset(Ids(s.obstacles));
      ShotKeepsOwnership(cfg, s, t, id, row, column, rs, cs);
  }

  lemma ShipResumeKeepsOwnership(cfg: Config, s: Shared, t: Task, inp: Input)
    requires ValidConfig(cfg) && RegistryOk(s) && t.wait == 0
    requires Owns(t.body) <= multiset(Ids(s.obstacles))
    requires t.body.ShipStart? || t.body.ShipFlying? || t.body.ShipExploding?
    ensures Trades(s, t, Owns(t.body), Resume(cfg, s, t, inp))
  {
    if t.body.ShipFlying? {
      ShipFlyingResumeKeepsOwnership(cfg, s, t, inp);
    } else if t.body.ShipStart? {
      ShipStartResumeKeepsOwnership(cfg, s, t, inp);
    } else {
      ShipExplodingResumeKeepsOwnership(cfg, s, t, inp);
    }
  }

  lemma ShipStartResumeKeepsOwnership(cfg: Config, s: Shared, t: Task, inp: Input)
    requires ValidConfig(cfg) && RegistryOk(s) && t.wait == 0
    requires t.body.ShipStart?
    ensures Trades(s, t, Owns(t.body), Resume(cfg, s, t, inp))
  {
    var ShipStart(row, column) := t.body;
    assert Resume(cfg, s, t, inp) == ShipStartSegment(cfg, s, t, row, column, inp);
    ShipStartKeepsOwnership(cfg, s, t, row, column, inp);
  }

  lemma ShipExplodingResumeKeepsOwnership(cfg: Config, s: Shared, t: Task, inp: Input)
    requires ValidConfig(cfg) && RegistryOk(s) && t.wait == 0
    requires Owns(t.body) <= multiset(Ids(s.obstacles))
    requires t.body.ShipExploding?
    ensures Trades(s, t, Owns(t.body), Resume(cfg, s, t, inp))
  {
    var id := t.body.obstacle;
    var o := Resume(cfg, s, t, inp);
    assert o == Suspend(Drop(s, id), t, 1, Idle, []);
    assert id in multiset(Ids(s.obstacles));
    DropOwned(s, id);
    EndlessTrades(s, t, id, Drop(s, id), o);
  }

  /** A resumption that drops obstacle `id` but keeps the task alive. */
  lemma EndlessTrades(s: Shared, t: Task, id: nat, s2: Shared, o: Outcome)
    requires RegistryOk(s2) && s2.nextId == s.nextId
    requires multiset(Ids(s2.obstacles)) + multiset{id} == multiset(Ids(s.obstacles))
    requires !o.done && Owns(o.task.body) == multiset{}
    requires o.shared == s2 && o.task.id == t.id && o.spawned == []
    ensures Trades(s, t, multiset{id}, o)
  {
  }

  lemma ShipFlyingResumeKeepsOwnership(cfg: Config, s: Shared, t: Task, inp: Input)
    requires ValidConfig(cfg) && RegistryOk(s) && t.wait == 0
    requires Owns(t.body) <= multiset(Ids(s.obstacles))
    requires t.body.ShipFlying?
    ensures Trades(s, t, Owns(t.body), Resume(cfg, s, t, inp))
  {
    var ShipFlying(id, row, column, rs, cs, k, space) := t.body;
    assert Resume(cfg, s, t, inp) == ShipSegment(cfg, s, t, id, row, column, rs, cs, k, space, inp);
    assert id in multiset(Ids(s.obstacles));
    ShipKeepsOwnership(cfg, s, t, id, row, column, rs, cs, k, space, inp);
  }

  lemma SpawnerKeepsOwnership(cfg: Config, s: Shared, t: Task, started: bool, start: int,
                              frame: Geometry.Size, inp: Input)
    requires ValidConfig(cfg) && RegistryOk(s)
    ensures Trades(s, t, multiset{}, SpawnerSegment(cfg, s, t, started, start, frame, inp))
  {
    var o := SpawnerSegment(cfg, s, t, started, start, frame, inp);
    if started {
      assert TaskIds(o.spawned) == [s.nextId];
    }
  }

  lemma GarbageStartKeepsOwnership(cfg: Config, s: Shared, t: Task, lane: int, frame: Geometry.Size, speed: real)
    requires RegistryOk(s)
    ensures Trades(s, t, multiset{}, GarbageStartSegment(cfg, s, t, lane, frame, speed))
  {
    var o := GarbageStartSegment(cfg, s, t, lane, frame, speed);
    var col := Geometry.GarbageColumn(cfg.columns, lane);
    var s1 := Register(s, Garbage, 0.0, col as real, frame);
    RegisterOk(s, Garbage, 0.0, col as real, frame);
    if 0.0 < cfg.rows as real {
      assert o == Suspend(s1, t, 1, GarbageFalling(s.nextId, 0.0, col, frame, speed), []);
      RegisterTrades(s, t, s1, o);
    } else {
      RegisterThenDrop(s, Garbage, 0.0, col as real, frame);
      assert o == Finish(Drop(s1, s.nextId), t, []);
    }
  }

  /** A resumption that ends the task, or leaves it holding nothing, after
      dropping its obstacle `id`. */
  lemma EndTrades(s: Shared, t: Task, id: nat, s2: Shared, o: Outcome)
    requires RegistryOk(s2) && s2.nextId == s.nextId
    requires multiset(Ids(s2.obstacles)) + multiset{id} == multiset(Ids(s.obstacles))
    requires Holds(o) == multiset{} && o.shared == s2 && o.task.id == t.id && o.spawned == []
    ensures Trades(s, t, multiset{id}, o)
  {
  }

  /** A resumption that keeps holding obstacle `id` and registers nothing. */
  lemma KeepTrades(s: Shared, t: Task, id: nat, s2: Shared, o: Outcome)
    requires RegistryOk(s2) && s2.nextId == s.nextId
    requires Ids(s2.obstacles) == Ids(s.obstacles)
    requires !o.done && Owns(o.task.body) == multiset{id}
    requires o.shared == s2 && o.task.id == t.id && o.spawned == []
    ensures Trades(s, t, multiset{id}, o)
  {
  }

  lemma GarbageKeepsOwnership(cfg: Config, s: Shared, t: Task, id: nat, row: real, lane: int,
                              frame: Geometry.Size, speed: real)
    requires RegistryOk(s) && id in Ids(s.obstacles)
    ensures Trades(s, t, multiset{id}, GarbageSegment(cfg, s, t, id, row, lane, frame, speed))
  {
    var o := GarbageSegment(cfg, s, t, id, row, lane, frame, speed);
    var s1 := s.(obstacles := Move(s.obstacles, id, row + speed, lane as real));
    assert Ids(s1.obstacles) == Ids(s.obstacles);
    assert RegistryOk(s1);
    if ShipHit(cfg, s1.obstacles, GarbageBox(id, row + speed, lane, frame)) {
      var s2 := Drop(s1.(life := s1.life - 1), id);
      DropOwned(s1.(life := s1.life - 1), id);
      assert o == Finish(s2, t, []);
      EndTrades(s, t, id, s2, o);
    } else if id in s1.collisions {
      DropOwned(s1, id);
      var s2 := Drop(s1, id).(collisions := RemoveFirst(s1.collisions, id));
      assert Ids(s2.obstacles) == Ids(Drop(s1, id).obstacles);
      if cfg.explosionTicks > 0 {
        assert o == Suspend(s2, t, cfg.explosionTicks, GarbageBlast, []);
      } else {
        assert o == Finish(s2, t, []);
      }
      EndTrades(s, t, id, s2, o);
    } else if row + speed < cfg.rows as real {
      assert o == Suspend(s1, t, 1, GarbageFalling(id, row + speed, lane, frame, speed), []);
      KeepTrades(s, t, id, s1, o);
    } else {
      DropOwned(s1, id);
      assert o == Finish(Drop(s1, id), t, []);
      EndTrades(s, t, id, Drop(s1, id), o);
    }
  }

  lemma ShotArmedKeepsOwnership(cfg: Config, s: Shared, t: Task, row: real, column: real, rs: real, cs: real)
    requires RegistryOk(s)
    ensures Trades(s, t, multiset{}, ShotArmedSegment(cfg, s, t, row, column, rs, cs))
  {
    var o := ShotArmedSegment(cfg, s, t, row, column, rs, cs);
    var s1 := Register(s, Shot, row + rs, column + cs, Geometry.Size(1, 1));
    RegisterOk(s, Shot, row + rs, column + cs, Geometry.Size(1, 1));
    if InFlight(cfg, row + rs, column + cs) {
      assert o == Suspend(s1, t, 1, ShotFlying(s.nextId, row + rs, column + cs, rs, cs), []);
      RegisterTrades(s, t, s1, o);
    } else {
      RegisterThenDrop(s, Shot, row + rs, column + cs, Geometry.Size(1, 1));
      assert o == Finish(Drop(s1, s.nextId), t, []);
    }
  }

  /** A resumption that registers one obstacle and keeps holding it. */
  lemma RegisterTrades(s: Shared, t: Task, s1: Shared, o: Outcome)
    requires RegistryOk(s1) && s1.nextId == s.nextId + 1
    requires multiset(Ids(s1.obstacles)) == multiset(Ids(s.obstacles)) + multiset{s.nextId}
    requires !o.done && Owns(o.task.body) == multiset{s.nextId}
    requires o.shared == s1 && o.task.id == t.id && o.spawned == []
    ensures Trades(s, t, multiset{}, o)
  {
  }

  lemma ShotKeepsOwnership(cfg: Config, s: Shared, t: Task, id: nat, row: real, column: real, rs: real, cs: real)
    requires RegistryOk(s) && id in Ids(s.obstacles)
    ensures Trades(s, t, multiset{id}, ShotSegment(cfg, s, t, id, row, column, rs, cs))
  {
    var o := ShotSegment(cfg, s, t, id, row, column, rs, cs);
    var s1 := s.(obstacles := Move(s.obstacles, id, row + rs, column + cs));
    assert Ids(s1.obstacles) == Ids(s.obstacles);
    assert RegistryOk(s1);
    var hit := FirstHit(s1.obstacles, Garbage, ShotBox(id, row + rs, column + cs), cfg.hit);
    if hit.Some? {
      var s2 := s1.(collisions := s1.collisions + [hit.value]);
      DropOwned(s2, id);
      assert o == Finish(Drop(s2, id), t, []);
      EndTrades(s, t, id, Drop(s2, id), o);
    } else if InFlight(cfg, row + rs, column + cs) {
      assert o == Suspend(s1, t, 1, ShotFlying(id, row + rs, column + cs, rs, cs), []);
      KeepTrades(s, t, id, s1, o);
    } else {
      DropOwned(s1, id);
      assert o == Finish(Drop(s1, id), t, []);
      EndTrades(s, t, id, Drop(s1, id), o);
    }
  }

  lemma ShipStartKeepsOwnership(cfg: Config, s: Shared, t: Task, row: real, column: real, inp: Input)
    requires ValidConfig(cfg) && RegistryOk(s)
    ensures Trades(s, t, multiset{}, ShipStartSegment(cfg, s, t, row, column, inp))
  {
    RegisterOk(s, Spaceship, row, column, cfg.shipFrames[0]);
  }

  lemma ShipKeepsOwnership(cfg: Config, s: Shared, t: Task, id: nat, row: real, column: real,
                           rs: real, cs: real, k: nat, space: bool, inp: Input)
    requires ValidConfig(cfg)
    requires RegistryOk(s)
    requires id in Ids(s.obstacles)
    ensures Trades(s, t, multiset{id}, ShipSegment(cfg, s, t, id, row, column, rs, cs, k, space, inp))
  {
    var fires := space && s.year > Difficulty.GunYear;
    var shots := if fires then [NewShot(s.nextId, row, column)] else [];
    var s1 := if fires then s.(nextId := s.nextId + 1) else s;
    VolleyNewborn(s.nextId, shots, s1.nextId, fires, row, column);
    assert ShipSegment(cfg, s, t, id, row, column, rs, cs, k, space, inp)
           == ShipLanding(cfg, s1, t, id, row, column, rs, cs, k, inp, shots);
    ShipLandingKeepsOwnership(cfg, s, s1, t, id, row, column, rs, cs, k, inp, shots);
  }

  lemma VolleyNewborn(lo: nat, shots: seq<Task>, hi: nat, fires: bool, row: real, column: real)
    requires shots == (if fires then [NewShot(lo, row, column)] else [])
    requires hi == (if fires then lo + 1 else lo)
    ensures Newborn(shots, lo, hi)
  {
    if fires {
      assert TaskIds(shots) == [lo];
    }
  }

  lemma ShipLandingKeepsOwnership(cfg: Config, s0: Shared, s: Shared, t: Task, id: nat, row: real, column: real,
                                  rs: real, cs: real, k: nat, inp: Input, shots: seq<Task>)
    requires ValidConfig(cfg)
    requires RegistryOk(s0) && id in Ids(s0.obstacles)
    requires s.obstacles == s0.obstacles && s0.nextId <= s.nextId
    requires Newborn(shots, s0.nextId, s.nextId)
    ensures Trades(s0, t, multiset{id}, ShipLanding(cfg, s, t, id, row, column, rs, cs, k, inp, shots))
  {
    var o := ShipLanding(cfg, s, t, id, row, column, rs, cs, k, inp, shots);
    var frame := ShipFrame(cfg, k);
    var p := Geometry.ClampShip(cfg.rows, cfg.columns, frame, Geometry.Pos(row, column));
    var s1 := s.(obstacles := Move(s.obstacles, id, p.row, p.column));
    assert Ids(s1.obstacles) == Ids(s0.obstacles);
    assert RegistryOk(s1);
    if s1.life <= 0 && cfg.explosionTicks > 0 {
      assert o == Suspend(s1, t, cfg.explosionTicks, ShipExploding(id), shots);
      SuspendTrades(s0, t, id, s1, o);
    } else if s1.life <= 0 {
      DropOwned(s1, id);
      assert o == Suspend(Drop(s1, id), t, 1, Idle, shots);
      assert Holds(o) == multiset{};
    } else {
      var speed := cfg.updateSpeed(rs, cs, inp.rowsDirection, inp.columnsDirection);
      assert o == Suspend(s1, t, 1, ShipFlying(id, p.row + speed.0, p.column + speed.1, speed.0, speed.1,
                                               (k + 1) % |cfg.shipFrames|, inp.spacePressed), shots);
      SuspendTrades(s0, t, id, s1, o);
    }
  }

  /** A resumption that keeps holding obstacle `id` and may append new tasks. */
  lemma SuspendTrades(s: Shared, t: Task, id: nat, s2: Shared, o: Outcome)
    requires RegistryOk(s2) && s.nextId <= s2.nextId
    requires Ids(s2.obstacles) == Ids(s.obstacles)
    requires !o.done && Owns(o.task.body) == multiset{id}
    requires o.shared == s2 && o.task.id == t.id && Newborn(o.spawned, s.nextId, s2.nextId)
    ensures Trades(s, t, multiset{id}, o)
  {
  }
}
