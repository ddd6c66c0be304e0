/** What one resumption leaves to the other coroutines: the obstacles they
    hold stay registered as they were, their entries in the collision record
    (main.py obstacles_in_last_collisions) stay in it, and the record itself
    changes in only two ways. */
module Frames {
  import opened Lists
  import opened Registry
  import opened Tasks
  import opened Ownership
  import opened Scheduler

  /** The collision record changes only when a flying shot hits a garbage
      (it appends the identity of a registered garbage obstacle and returns)
      or when a falling garbage finds its own identity there (it takes one
      copy out and explodes or returns). */
  ghost predicate RecordStep(s: Shared, t: Task, o: Outcome) {
    || o.shared.collisions == s.collisions
    || (&& t.wait == 0 && t.body.ShotFlying? && o.done
        && exists i :: 0 <= i < |s.obstacles| && s.obstacles[i].tag == Garbage
                       && o.shared.collisions == s.collisions + [s.obstacles[i].id])
    || (&& t.wait == 0 && t.body.GarbageFalling? && t.body.obstacle in s.collisions
        && (o.done || o.task.body == GarbageBlast)
        && o.shared.collisions == RemoveFirst(s.collisions, t.body.obstacle))
  }

  lemma IdOfMember(obs: seq<Obstacle>, ob: Obstacle)
    requires ob in obs
    ensures ob.id in Ids(obs)
  {
    var i :| 0 <= i < |obs| && obs[i] == ob;
    assert Ids(obs)[i] == ob.id;
  }

  // ------------------------------------------------------------ obstacles

  /** Resuming `t` keeps every registered obstacle that `t` does not hold,
      with its identity, tag, corner and size: tasks only move and remove
      their own obstacles and only add new ones. */
  lemma ResumeKeepsOthers(cfg: Config, s: Shared, t: Task, inp: Input)
    requires ValidConfig(cfg) && RegistryOk(s)
    ensures var o := Resume(cfg, s, t, inp);
            forall ob :: ob in s.obstacles && ob.id !in Owns(t.body) ==> ob in o.shared.obstacles
  {
    if t.wait > 0 {
      assert Resume(cfg, s, t, inp).shared == s;
    } else if t.body.GarbageStart? || t.body.GarbageFalling? || t.body.GarbageBlast? {
      GarbageKeepsOthers(cfg, s, t, inp);
    } else if t.body.ShotArmed? || t.body.ShotFlying? {
      ShotKeepsOthers(cfg, s, t, inp);
    } else if t.body.ShipStart? || t.body.ShipFlying? || t.body.ShipExploding? {
      ShipKeepsOthers(cfg, s, t, inp);
    } else {
      BackgroundUntouched(cfg, s, t, inp);
    }
  }

  /** blink, change_year and the spawner touch neither the registry nor the
      record. */
  lemma BackgroundUntouched(cfg: Config, s: Shared, t: Task, inp: Input)
    requires ValidConfig(cfg) && t.wait == 0
    requires t.body.Idle? || t.body.Clock? || t.body.Spawner?
    ensures var o := Resume(cfg, s, t, inp);
            o.shared.obstacles == s.obstacles && o.shared.collisions == s.collisions
  {
    var o := Resume(cfg, s, t, inp);
    match t.body
    case Idle =>
    case Clock(started) =>
      assert o == ClockSegment(s, t, started);
    case Spawner(started, start, frame) =>
      assert o == SpawnerSegment(cfg, s, t, started, start, frame, inp);
  }

  lemma GarbageKeepsOthers(cfg: Config, s: Shared, t: Task, inp: Input)
    requires ValidConfig(cfg) && RegistryOk(s) && t.wait == 0
    requires t.body.GarbageStart? || t.body.GarbageFalling? || t.body.GarbageBlast?
    ensures var o := Resume(cfg, s, t, inp);
            forall ob :: ob in s.obstacles && ob.id !in Owns(t.body) ==> ob in o.shared.obstacles
  {
    var o := Resume(cfg, s, t, inp);
    match t.body
    case GarbageStart(lane, frame, speed) =>
      assert o == GarbageStartSegment(cfg, s, t, lane, frame, speed);
      GarbageStartObstacles(cfg, s, t, lane, frame, speed);
    case GarbageFalling(id, row, lane, frame, speed) =>
      assert o == GarbageSegment(cfg, s, t, id, row, lane, frame, speed);
      GarbageObstacles(cfg, s, t, id, row, lane, frame, speed);
    case GarbageBlast =>
  }

  lemma ShotKeepsOthers(cfg: Config, s: Shared, t: Task, inp: Input)
    requires ValidConfig(cfg) && RegistryOk(s) && t.wait == 0
    requires t.body.ShotArmed? || t.body.ShotFlying?
    ensures var o := Resume(cfg, s, t, inp);
            forall ob :: ob in s.obstacles && ob.id !in Owns(t.body) ==> ob in o.shared.obstacles
  {
    var o := Resume(cfg, s, t, inp);
    match t.body
    case ShotArmed(row, column, rs, cs) =>
      assert o == ShotArmedSegment(cfg, s, t, row, column, rs, cs);
      ShotArmedObstacles(cfg, s, t, row, column, rs, cs);
    case ShotFlying(id, row, column, rs, cs) =>
      assert o == ShotSegment(cfg, s, t, id, row, column, rs, cs);
      ShotObstacles(cfg, s, t, id, row, column, rs, cs);
  }

  lemma ShipKeepsOthers(cfg: Config, s: Shared, t: Task, inp: Input)
    requires ValidConfig(cfg) && t.wait == 0
    requires t.body.ShipStart? || t.body.ShipFlying? || t.body.ShipExploding?
    ensures var o := Resume(cfg, s, t, inp);
            && (forall ob :: ob in s.obstacles && ob.id !in Owns(t.body) ==> ob in o.shared.obstacles)
            && o.shared.collisions == s.collisions
  {
    if t.body.ShipFlying? {
      ShipFlyingKeepsOthers(cfg, s, t, inp);
    } else if t.body.ShipStart? {
      ShipStartKeepsOthers(cfg, s, t, inp);
    } else {
      ShipExplodingKeepsOthers(cfg, s, t, inp);
    }
  }

  lemma ShipStartKeepsOthers(cfg: Config, s: Shared, t: Task, inp: Input)
    requires ValidConfig(cfg) && t.wait == 0 && t.body.ShipStart?
    ensures var o := Resume(cfg, s, t, inp);
            && (forall ob :: ob in s.obstacles ==> ob in o.shared.obstacles)
            && o.shared.collisions == s.collisions
  {
    var ShipStart(row, column) := t.body;
    assert Resume(cfg, s, t, inp) == ShipStartSegment(cfg, s, t, row, column, inp);
  }

  lemma ShipExplodingKeepsOthers(cfg: Config, s: Shared, t: Task, inp: Input)
    requires ValidConfig(cfg) && t.wait == 0 && t.body.ShipExploding?
    ensures var o := Resume(cfg, s, t, inp);
            && (forall ob :: ob in s.obstacles && ob.id != t.body.obstacle ==> ob in o.shared.obstacles)
            && o.shared.collisions == s.collisions
  {
    var id := t.body.obstacle;
    assert Resume(cfg, s, t, inp) == Suspend(Drop(s, id), t, 1, Idle, []);
    UnregisterKeepsOthers(s.obstacles, id);
  }

  lemma ShipFlyingKeepsOthers(cfg: Config, s: Shared, t: Task, inp: Input)
    requires ValidConfig(cfg) && t.wait == 0 && t.body.ShipFlying?
    ensures var o := Resume(cfg, s, t, inp);
            && (forall ob :: ob in s.obstacles && ob.id !in Owns(t.body) ==> ob in o.shared.obstacles)
            && o.shared.collisions == s.collisions
  {
    var ShipFlying(id, row, column, rs, cs, k, space) := t.body;
    assert Resume(cfg, s, t, inp) == ShipSegment(cfg, s, t, id, row, column, rs, cs, k, space, inp);
    ShipObstacles(cfg, s, t, id, row, column, rs, cs, k, space, inp);
  }

  /** A new obstacle that is registered and at once removed again leaves
      every obstacle registered before. */
  lemma RegisterDropKeeps(s: Shared, s1: Shared, s2: Shared, tag: Tag, row: real, column: real, size: Geometry.Size)
    requires RegistryOk(s) && s1 == Register(s, tag, row, column, size)
    requires s2 == s1 || s2 == Drop(s1, s.nextId)
    ensures forall ob :: ob in s.obstacles ==> ob in s2.obstacles
  {
    forall ob | ob in s.obstacles ensures ob in s2.obstacles {
      IdOfMember(s.obstacles, ob);
      UnregisterKeepsOthers(s1.obstacles, s.nextId);
    }
  }

  /** fire, after its muzzle flash, only adds its own obstacle. */
  lemma ShotArmedObstacles(cfg: Config, s: Shared, t: Task, row: real, column: real, rs: real, cs: real)
    requires RegistryOk(s)
    ensures var o := ShotArmedSegment(cfg, s, t, row, column, rs, cs);
            forall ob :: ob in s.obstacles ==> ob in o.shared.obstacles
  {
    var o := ShotArmedSegment(cfg, s, t, row, column, rs, cs);
    var s1 := Register(s, Shot, row + rs, column + cs, Geometry.Size(1, 1));
    if InFlight(cfg, row + rs, column + cs) {
      assert o.shared == s1;
    } else {
      assert o.shared == Drop(s1, s.nextId);
    }
    RegisterDropKeeps(s, s1, o.shared, Shot, row + rs, column + cs, Geometry.Size(1, 1));
  }

  /** fly_garbage, on its first resumption, only adds its own obstacle. */
  lemma GarbageStartObstacles(cfg: Config, s: Shared, t: Task, lane: int, frame: Geometry.Size, speed: real)
    requires RegistryOk(s)
    ensures var o := GarbageStartSegment(cfg, s, t, lane, frame, speed);
            forall ob :: ob in s.obstacles ==> ob in o.shared.obstacles
  {
    var o := GarbageStartSegment(cfg, s, t, lane, frame, speed);
    var col := Geometry.GarbageColumn(cfg.columns, lane);
    var s1 := Register(s, Garbage, 0.0, col as real, frame);
    if 0.0 < cfg.rows as real {
      assert o.shared == s1;
    } else {
      assert o.shared == Drop(s1, s.nextId);
    }
    RegisterDropKeeps(s, s1, o.shared, Garbage, 0.0, col as real, frame);
  }

  /** The end of an animate_spaceship pass leaves its obstacle moved to the
      clamped corner, then removed when the ship has exploded without an
      explosion animation. */
  lemma LandingShared(cfg: Config, s: Shared, t: Task, id: nat, row: real, column: real,
                      rs: real, cs: real, k: nat, inp: Input, shots: seq<Task>)
    requires ValidConfig(cfg)
    ensures var o := ShipLanding(cfg, s, t, id, row, column, rs, cs, k, inp, shots);
            var p := Geometry.ClampShip(cfg.rows, cfg.columns, ShipFrame(cfg, k), Geometry.Pos(row, column));
            var s1 := s.(obstacles := Move(s.obstacles, id, p.row, p.column));
            o.shared == s1 || o.shared == Drop(s1, id)
  {
  }

  /** The end of an animate_spaceship pass moves and removes only its own
      obstacle and leaves the record alone. */
  lemma LandingObstacles(cfg: Config, s: Shared, t: Task, id: nat, row: real, column: real,
                         rs: real, cs: real, k: nat, inp: Input, shots: seq<Task>)
    requires ValidConfig(cfg)
    ensures var o := ShipLanding(cfg, s, t, id, row, column, rs, cs, k, inp, shots);
            && (forall ob :: ob in s.obstacles && ob.id != id ==> ob in o.shared.obstacles)
            && o.shared.collisions == s.collisions
  {
    var o := ShipLanding(cfg, s, t, id, row, column, rs, cs, k, inp, shots);
    LandingShared(cfg, s, t, id, row, column, rs, cs, k, inp, shots);
    var p := Geometry.ClampShip(cfg.rows, cfg.columns, ShipFrame(cfg, k), Geometry.Pos(row, column));
    var moved := Move(s.obstacles, id, p.row, p.column);
    forall ob | ob in s.obstacles && ob.id != id ensures ob in o.shared.obstacles {
      MoveKeepsOthers(s.obstacles, id, p.row, p.column);
      UnregisterKeepsOthers(moved, id);
    }
  }

  /** A pass of animate_spaceship first appends the shot, if it fires, and
      then lands. */
  lemma ShipLands(cfg: Config, s: Shared, t: Task, id: nat, row: real, column: real,
                  rs: real, cs: real, k: nat, space: bool, inp: Input)
    requires ValidConfig(cfg)
    ensures var fires := space && s.year > Difficulty.GunYear;
            ShipSegment(cfg, s, t, id, row, column, rs, cs, k, space, inp)
            == ShipLanding(cfg, if fires then s.(nextId := s.nextId + 1) else s, t, id, row, column, rs, cs, k, inp,
                           if fires then [NewShot(s.nextId, row, column)] else [])
  {
  }

  /** One pass of animate_spaceship moves and removes only its own obstacle. */
  lemma ShipObstacles(cfg: Config, s: Shared, t: Task, id: nat, row: real, column: real,
                      rs: real, cs: real, k: nat, space: bool, inp: Input)
    requires ValidConfig(cfg)
    ensures var o := ShipSegment(cfg, s, t, id, row, column, rs, cs, k, space, inp);
            && (forall ob :: ob in s.obstacles && ob.id != id ==> ob in o.shared.obstacles)
            && o.shared.collisions == s.collisions
  {
    var fires := space && s.year > Difficulty.GunYear;
    var s0 := if fires then s.(nextId := s.nextId + 1) else s;
    ShipLands(cfg, s, t, id, row, column, rs, cs, k, space, inp);
    LandingObstacles(cfg, s0, t, id, row, column, rs, cs, k, inp, if fires then [NewShot(s.nextId, row, column)] else []);
  }

  /** The four ways a pass of fly_garbage's loop ends, with the shared state
      each leaves. */
  lemma GarbageBranches(cfg: Config, s: Shared, t: Task, id: nat, row: real, lane: int,
                        frame: Geometry.Size, speed: real)
    ensures var o := GarbageSegment(cfg, s, t, id, row, lane, frame, speed);
            var s1 := s.(obstacles := Move(s.obstacles, id, row + speed, lane as real));
            || o.shared == Drop(s1.(life := s1.life - 1), id)
            || (id in s.collisions && (o.done || o.task.body == GarbageBlast)
                && o.shared == Drop(s1, id).(collisions := RemoveFirst(s1.collisions, id)))
            || o.shared == s1
            || o.shared == Drop(s1, id)
  {
    var o := GarbageSegment(cfg, s, t, id, row, lane, frame, speed);
    var s1 := s.(obstacles := Move(s.obstacles, id, row + speed, lane as real));
    var hit := ShipHit(cfg, s1.obstacles, GarbageBox(id, row + speed, lane, frame));
    if hit {
      assert o == Finish(Drop(s1.(life := s1.life - 1), id), t, []);
    } else if id in s1.collisions {
      var s2 := Drop(s1, id).(collisions := RemoveFirst(s1.collisions, id));
      if cfg.explosionTicks > 0 {
        assert o == Suspend(s2, t, cfg.explosionTicks, GarbageBlast, []);
      } else {
        assert o == Finish(s2, t, []);
      }
    } else if row + speed < cfg.rows as real {
      assert o == Suspend(s1, t, 1, GarbageFalling(id, row + speed, lane, frame, speed), []);
    } else {
      assert o == Finish(Drop(s1, id), t, []);
    }
  }

  /** One pass of fly_garbage's loop moves and removes only its own obstacle. */
  lemma GarbageObstacles(cfg: Config, s: Shared, t: Task, id: nat, row: real, lane: int,
                         frame: Geometry.Size, speed: real)
    ensures var o := GarbageSegment(cfg, s, t, id, row, lane, frame, speed);
            forall ob :: ob in s.obstacles && ob.id != id ==> ob in o.shared.obstacles
  {
    var moved := Move(s.obstacles, id, row + speed, lane as real);
    GarbageBranches(cfg, s, t, id, row, lane, frame, speed);
    MoveKeepsOthers(s.obstacles, id, row + speed, lane as real);
    UnregisterKeepsOthers(moved, id);
  }

  /** One pass of fly_garbage's loop takes only its own identity out of the
      record, and only once it finds it there. */
  lemma GarbageRecord(cfg: Config, s: Shared, t: Task, id: nat, row: real, lane: int,
                      frame: Geometry.Size, speed: real)
    ensures var o := GarbageSegment(cfg, s, t, id, row, lane, frame, speed);
            && (forall x :: x in s.collisions && x != id ==> x in o.shared.collisions)
            && (o.shared.collisions == s.collisions
                || (&& id in s.collisions && (o.done || o.task.body == GarbageBlast)
                    && o.shared.collisions == RemoveFirst(s.collisions, id)))
  {
    GarbageBranches(cfg, s, t, id, row, lane, frame, speed);
    RemoveFirstKeepsOthers(s.collisions, id);
  }

  /** A pass of fire's flight loop leaves its obstacle moved, then removed
      unless the shot flies on. */
  lemma ShotShared(cfg: Config, s: Shared, t: Task, id: nat, row: real, column: real, rs: real, cs: real)
    ensures var o := ShotSegment(cfg, s, t, id, row, column, rs, cs);
            var moved := Move(s.obstacles, id, row + rs, column + cs);
            o.shared.obstacles == moved || o.shared.obstacles == Unregister(moved, id)
  {
    var o := ShotSegment(cfg, s, t, id, row, column, rs, cs);
    var s1 := s.(obstacles := Move(s.obstacles, id, row + rs, column + cs));
    match FirstHit(s1.obstacles, Garbage, ShotBox(id, row + rs, column + cs), cfg.hit)
    case Some(g) =>
      assert o == Finish(Drop(s1.(collisions := s1.collisions + [g]), id), t, []);
    case None =>
      if InFlight(cfg, row + rs, column + cs) {
        assert o == Suspend(s1, t, 1, ShotFlying(id, row + rs, column + cs, rs, cs), []);
      } else {
        assert o == Finish(Drop(s1, id), t, []);
      }
  }

  /** One pass of fire's flight loop moves and removes only its own obstacle. */
  lemma ShotObstacles(cfg: Config, s: Shared, t: Task, id: nat, row: real, column: real, rs: real, cs: real)
    ensures var o := ShotSegment(cfg, s, t, id, row, column, rs, cs);
            forall ob :: ob in s.obstacles && ob.id != id ==> ob in o.shared.obstacles
  {
    var o := ShotSegment(cfg, s, t, id, row, column, rs, cs);
    var moved := Move(s.obstacles, id, row + rs, column + cs);
    ShotShared(cfg, s, t, id, row, column, rs, cs);
    forall ob | ob in s.obstacles && ob.id != id ensures ob in o.shared.obstacles {
      MoveKeepsOthers(s.obstacles, id, row + rs, column + cs);
      UnregisterKeepsOthers(moved, id);
    }
  }

  /** One pass of fire's flight loop changes the record only on a hit, by
      appending the identity of a garbage registered before the pass. */
  lemma ShotRecord(cfg: Config, s: Shared, t: Task, id: nat, row: real, column: real, rs: real, cs: real)
    ensures var o := ShotSegment(cfg, s, t, id, row, column, rs, cs);
            || o.shared.collisions == s.collisions
            || (&& o.done
                && exists i :: 0 <= i < |s.obstacles| && s.obstacles[i].tag == Garbage
                               && o.shared.collisions == s.collisions + [s.obstacles[i].id])
  {
    var o := ShotSegment(cfg, s, t, id, row, column, rs, cs);
    var s1 := s.(obstacles := Move(s.obstacles, id, row + rs, column + cs));
    match FirstHit(s1.obstacles, Garbage, ShotBox(id, row + rs, column + cs), cfg.hit)
    case Some(g) =>
      assert o == Finish(Drop(s1.(collisions := s1.collisions + [g]), id), t, []);
      HitIsRegisteredGarbage(s.obstacles, id, row + rs, column + cs, ShotBox(id, row + rs, column + cs), cfg.hit);
      var i :| 0 <= i < |s.obstacles| && s.obstacles[i].tag == Garbage && s.obstacles[i].id == g;
      assert o.shared.collisions == s.collisions + [s.obstacles[i].id];
    case None =>
      if InFlight(cfg, row + rs, column + cs) {
        assert o == Suspend(s1, t, 1, ShotFlying(id, row + rs, column + cs, rs, cs), []);
      } else {
        assert o == Finish(Drop(s1, id), t, []);
      }
  }

  /** The garbage a shot finds after moving is a garbage of the registry
      before the move. */
  lemma HitIsRegisteredGarbage(obs: seq<Obstacle>, id: nat, row: real, column: real, box: Obstacle,
                               hit: (Obstacle, Obstacle) -> bool)
    ensures var r := FirstHit(Move(obs, id, row, column), Garbage, box, hit);
            r.Some? ==> exists i :: 0 <= i < |obs| && obs[i].tag == Garbage && obs[i].id == r.value
  {
    var moved := Move(obs, id, row, column);
    var r := FirstHit(moved, Garbage, box, hit);
    if r.Some? {
      var i :| 0 <= i < |moved| && moved[i].id == r.value && moved[i].tag == Garbage;
      assert Ids(moved)[i] == Ids(obs)[i];
    }
  }

  // --------------------------------------------------------------- record

  /** Resuming `t` changes the collision record only as RecordStep allows,
      and keeps every entry that names an obstacle `t` does not hold. */
  lemma ResumeRecord(cfg: Config, s: Shared, t: Task, inp: Input)
    requires ValidConfig(cfg)
    ensures var o := Resume(cfg, s, t, inp);
            && RecordStep(s, t, o)
            && forall x :: x in s.collisions && x !in Owns(t.body) ==> x in o.shared.collisions
  {
    var o := Resume(cfg, s, t, inp);
    if t.wait > 0 {
      assert o.shared == s;
    } else {
      match t.body
      case ShotFlying(id, row, column, rs, cs) =>
        assert o == ShotSegment(cfg, s, t, id, row, column, rs, cs);
        ShotRecord(cfg, s, t, id, row, column, rs, cs);
      case GarbageFalling(id, row, lane, frame, speed) =>
        assert o == GarbageSegment(cfg, s, t, id, row, lane, frame, speed);
        GarbageRecord(cfg, s, t, id, row, lane, frame, speed);
      case _ =>
        QuietRecord(cfg, s, t, inp);
    }
  }

  /** Every coroutine other than a flying shot or a falling garbage leaves
      the record as it is. */
  lemma QuietRecord(cfg: Config, s: Shared, t: Task, inp: Input)
    requires ValidConfig(cfg) && t.wait == 0
    requires !t.body.ShotFlying? && !t.body.GarbageFalling?
    ensures Resume(cfg, s, t, inp).shared.collisions == s.collisions
  {
    var o := Resume(cfg, s, t, inp);
    if t.body.Idle? || t.body.Clock? || t.body.Spawner? {
      BackgroundUntouched(cfg, s, t, inp);
    } else if t.body.ShipStart? || t.body.ShipFlying? || t.body.ShipExploding? {
      ShipKeepsOthers(cfg, s, t, inp);
    } else {
      match t.body
      case GarbageStart(lane, frame, speed) =>
        assert o == GarbageStartSegment(cfg, s, t, lane, frame, speed);
      case GarbageBlast =>
      case ShotArmed(row, column, rs, cs) =>
        assert o == ShotArmedSegment(cfg, s, t, row, column, rs, cs);
    }
  }

  /** A step that keeps every record entry naming an obstacle the resumed
      task does not hold. */
  ghost predicate StepKeepsRecord(step: Step) {
    forall s: Shared, t: Task, x: nat ::
      x in s.collisions && x !in Owns(t.body) ==> x in step(s, t).shared.collisions
  }

  lemma StepperKeepsRecord(cfg: Config, inp: Input)
    requires ValidConfig(cfg)
    ensures StepKeepsRecord(Stepper(cfg, inp))
  {
    forall s: Shared, t: Task, x: nat | x in s.collisions && x !in Owns(t.body)
      ensures x in Stepper(cfg, inp)(s, t).shared.collisions
    {
      ResumeRecord(cfg, s, t, inp);
    }
  }

  /** The record handshake across a pass: an entry stays in the record until
      the task holding that obstacle is resumed, so a garbage hit by a shot
      finds its identity on its own next resumption. */
  lemma {:induction false} PassKeepsRecord(step: Step, s: Shared, ts: seq<Task>, g: nat)
    requires StepKeepsRecord(step) && g in s.collisions
    requires forall i :: 0 <= i < |ts| ==> g !in Owns(ts[i].body)
    ensures g in RunPass(step, s, ts).shared.collisions
    decreases |ts|
  {
    if ts != [] {
      var n := |ts| - 1;
      PassKeepsRecord(step, s, ts[..n], g);
      var p := RunPass(step, s, ts[..n]);
      assert RunPass(step, s, ts).shared == step(p.shared, ts[n]).shared;
    }
  }

  /** A pass over `a + b` is a pass over `a` followed by one over `b`. */
  lemma {:induction false} RunPassSplit(step: Step, s: Shared, a: seq<Task>, b: seq<Task>)
    ensures RunPass(step, s, a + b).shared == RunPass(step, RunPass(step, s, a).shared, b).shared
    decreases |b|
  {
    if b == [] {
      assert a + b == a;
    } else {
      var n := |b| - 1;
      assert (a + b)[..|a + b| - 1] == a + b[..n];
      assert (a + b)[|a + b| - 1] == b[n];
      RunPassSplit(step, s, a, b[..n]);
    }
  }

  /** The handshake inside the tick of the hit: once the resumption of
      `ts[i]` leaves `g` in the record, `g` is still there in the state in
      which `ts[j]` is resumed (or at the end of the pass, j == |ts|),
      provided no task between them holds `g`. */
  lemma RecordSurvivesRest(step: Step, s: Shared, ts: seq<Task>, i: nat, j: nat, g: nat)
    requires StepKeepsRecord(step) && i < j <= |ts|
    requires g in step(RunPass(step, s, ts[..i]).shared, ts[i]).shared.collisions
    requires forall k :: i < k < j ==> g !in Owns(ts[k].body)
    ensures g in RunPass(step, s, ts[..j]).shared.collisions
  {
    var rest := ts[i + 1..j];
    assert ts[..j] == ts[..i + 1] + rest;
    RunPassSplit(step, s, ts[..i + 1], rest);
    assert RunPass(step, s, ts[..i + 1]).shared == step(RunPass(step, s, ts[..i]).shared, ts[i]).shared by {
      RunPassSnoc(step, s, ts, i);
    }
    forall k | 0 <= k < |rest| ensures g !in Owns(rest[k].body) {
      assert rest[k] == ts[i + 1 + k];
    }
    PassKeepsRecord(step, RunPass(step, s, ts[..i + 1]).shared, rest, g);
  }

  /** The handshake end to end in the game. A flying shot at position `i` of
      the tick's snapshot hits and records garbage `g`. Then `g` is still in
      the record when the snapshot reaches position `j`, for any `j` after
      `i` up to the first coroutine that holds `g`; only a flying shot can
      record anything. In the next tick,
      PassKeepsRecord carries it from the start of the pass to that holder.
      So the garbage finds itself recorded on its own next resumption. */
  lemma ShotRecordReachesHolder(cfg: Config, w: World, inp: Input, i: nat, j: nat, g: nat)
    requires ValidConfig(cfg) && i < j <= |w.tasks|
    requires var prev := RunPass(Stepper(cfg, inp), w.shared, w.tasks[..i]).shared;
             Resume(cfg, prev, w.tasks[i], inp).shared.collisions == prev.collisions + [g]
    requires forall k :: i < k < j ==> g !in Owns(w.tasks[k].body)
    ensures w.tasks[i].wait == 0 && w.tasks[i].body.ShotFlying?
    ensures g in RunPass(Stepper(cfg, inp), w.shared, w.tasks[..j]).shared.collisions
  {
    var step := Stepper(cfg, inp);
    StepperKeepsRecord(cfg, inp);
    var prev := RunPass(step, w.shared, w.tasks[..i]).shared;
    ResumeRecord(cfg, prev, w.tasks[i], inp);
    assert step(prev, w.tasks[i]) == Resume(cfg, prev, w.tasks[i], inp);
    RecordSurvivesRest(step, w.shared, w.tasks, i, j, g);
  }

  /** A tick in which no coroutine holds obstacle `g` keeps `g` in the
      record. */
  lemma TickKeepsRecord(cfg: Config, w: World, inp: Input, g: nat)
    requires ValidConfig(cfg) && g in w.shared.collisions
    requires forall i :: 0 <= i < |w.tasks| ==> g !in Owns(w.tasks[i].body)
    ensures g in Tick(cfg, w, inp).shared.collisions
  {
    StepperKeepsRecord(cfg, inp);
    PassKeepsRecord(Stepper(cfg, inp), w.shared, w.tasks, g);
  }
}
