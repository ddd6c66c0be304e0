/** What one resumption of fly_garbage does, branch by branch. */
module GarbageLaws {
  import opened Lists
  import opened Geometry
  import opened Registry
  import opened Tasks
  import opened Ownership
  import opened Difficulty

  /** The garbage's first resumption registers its box at row 0 in the
      clamped column, and enters the loop only if the canvas has a row. */
  lemma GarbageStartLaw(cfg: Config, s: Shared, t: Task, lane: int, frame: Size, speed: real)
    requires RegistryOk(s)
    ensures var o := GarbageStartSegment(cfg, s, t, lane, frame, speed);
            var col := GarbageColumn(cfg.columns, lane);
            && o.shared.collisions == s.collisions && o.shared.life == s.life
            && (cfg.rows > 0 ==>
                  && !o.done && o.task.wait == 0
                  && o.task.body == GarbageFalling(s.nextId, 0.0, col, frame, speed)
                  && o.shared.obstacles == s.obstacles + [Obstacle(s.nextId, Garbage, 0.0, col as real, frame.rows, frame.columns)])
            && (cfg.rows == 0 ==> o.done && s.nextId !in Ids(o.shared.obstacles) && Ids(o.shared.obstacles) == Ids(s.obstacles))
  {
    var col := GarbageColumn(cfg.columns, lane);
    var s1 := Register(s, Garbage, 0.0, col as real, frame);
    RemoveFirstOfLast(Ids(s.obstacles), s.nextId);
  }

  /** The moved registry and the box the loop tests after `row += speed`. */
  function Fallen(s: Shared, id: nat, row: real, column: int, speed: real): seq<Obstacle>
  {
    Move(s.obstacles, id, row + speed, column as real)
  }

  /** The ship check comes first: a garbage that touches the ship costs one
      life point and removes its own obstacle, and the collision record is
      left alone even when this garbage is in it. */
  lemma GarbageShipHitLaw(cfg: Config, s: Shared, t: Task, id: nat, row: real, column: int, frame: Size, speed: real)
    requires Distinct(Ids(s.obstacles))
    requires ShipHit(cfg, Fallen(s, id, row, column, speed), GarbageBox(id, row + speed, column, frame))
    ensures var o := GarbageSegment(cfg, s, t, id, row, column, frame, speed);
            && o.done
            && o.shared.life == s.life - 1
            && o.shared.collisions == s.collisions
            && Ids(o.shared.obstacles) == RemoveFirst(Ids(s.obstacles), id)
            && id !in Ids(o.shared.obstacles)
  {
    RemoveFirstOfDistinct(Ids(s.obstacles), id);
  }

  /** A garbage a shot recorded removes itself from both lists on its next
      resumption (unless the ship check fired first), then explodes. */
  lemma GarbageRecordLaw(cfg: Config, s: Shared, t: Task, id: nat, row: real, column: int, frame: Size, speed: real)
    requires Distinct(Ids(s.obstacles))
    requires !ShipHit(cfg, Fallen(s, id, row, column, speed), GarbageBox(id, row + speed, column, frame))
    requires id in s.collisions
    ensures var o := GarbageSegment(cfg, s, t, id, row, column, frame, speed);
            && o.shared.life == s.life
            && o.shared.collisions == RemoveFirst(s.collisions, id)
            && |o.shared.collisions| == |s.collisions| - 1
            && Ids(o.shared.obstacles) == RemoveFirst(Ids(s.obstacles), id)
            && id !in Ids(o.shared.obstacles)
            && (if cfg.explosionTicks > 0
                then !o.done && o.task.body == GarbageBlast && o.task.wait + 1 == cfg.explosionTicks
                else o.done)
  {
    RemoveFirstOfDistinct(Ids(s.obstacles), id);
  }

  /** Untouched garbage moves down by `speed`; it stays registered, at its
      new row, while that row is above the bottom, and otherwise leaves. */
  lemma GarbageFallLaw(cfg: Config, s: Shared, t: Task, id: nat, row: real, column: int, frame: Size, speed: real)
    requires Distinct(Ids(s.obstacles)) && id in Ids(s.obstacles)
    requires !ShipHit(cfg, Fallen(s, id, row, column, speed), GarbageBox(id, row + speed, column, frame))
    requires id !in s.collisions
    ensures var o := GarbageSegment(cfg, s, t, id, row, column, frame, speed);
            && o.shared.life == s.life && o.shared.collisions == s.collisions
            && (row + speed < cfg.rows as real ==>
                  && !o.done && o.task.wait == 0
                  && o.task.body == GarbageFalling(id, row + speed, column, frame, speed)
                  && Ids(o.shared.obstacles) == Ids(s.obstacles)
                  && (forall i :: 0 <= i < |o.shared.obstacles| && o.shared.obstacles[i].id == id ==>
                        o.shared.obstacles[i].row == row + speed))
            && (row + speed >= cfg.rows as real ==> o.done && id !in Ids(o.shared.obstacles))
  {
    RemoveFirstOfDistinct(Ids(s.obstacles), id);
  }

  /** Whatever way fly_garbage leaves its loop, its obstacle is gone from the
      registry; while it stays in the loop, its obstacle stays registered. */
  lemma GarbageExitsClean(cfg: Config, s: Shared, t: Task, id: nat, row: real, column: int, frame: Size, speed: real)
    requires Distinct(Ids(s.obstacles)) && id in Ids(s.obstacles)
    ensures var o := GarbageSegment(cfg, s, t, id, row, column, frame, speed);
            && (o.done || o.task.body == GarbageBlast <==> id !in Ids(o.shared.obstacles))
            && (!o.done && o.task.body != GarbageBlast ==> o.task.body.GarbageFalling? && o.task.body.obstacle == id)
  {
    RemoveFirstOfDistinct(Ids(s.obstacles), id);
  }

  /** Resumptions a falling garbage has left before its row reaches the
      bottom, at most. */
  function FallBudget(rows: nat, row: real, speed: real): nat
    requires speed > 0.0
  {
    if row >= rows as real then 0 else ((rows as real - row) / speed).Floor as nat + 1
  }

  /** With a positive speed every pass that stays in the loop spends one unit
      of the budget, so fly_garbage returns after finitely many resumptions. */
  lemma GarbageFalls(cfg: Config, s: Shared, t: Task, id: nat, row: real, column: int, frame: Size, speed: real)
    requires speed > 0.0
    ensures var o := GarbageSegment(cfg, s, t, id, row, column, frame, speed);
            !o.done && o.task.body.GarbageFalling? ==>
              && o.task.body == GarbageFalling(id, row + speed, column, frame, speed)
              && FallBudget(cfg.rows, row + speed, speed) < FallBudget(cfg.rows, row, speed)
  {
    var o := GarbageSegment(cfg, s, t, id, row, column, frame, speed);
    if !o.done && o.task.body.GarbageFalling? {
      assert row + speed < cfg.rows as real;
      BudgetStep(cfg.rows as real - row, speed);
    }
  }

  lemma BudgetStep(d: real, speed: real)
    requires speed > 0.0 && d > speed
    ensures ((d - speed) / speed).Floor == (d / speed).Floor - 1
  {
    assert speed / speed == 1.0;
    assert (d - speed) / speed == d / speed - speed / speed;
  }

  /** One resumption of fill_orbit_with_garbage: the garbage drawn before the
      sleep is appended (fly_garbage at the drawn start column with the
      default speed), then a new frame and start column are drawn, the start
      column within the clamped spawn column, and the spawner sleeps for the
      current year's delay. */
  lemma SpawnerLaw(cfg: Config, s: Shared, t: Task, started: bool, start: int, frame: Size, inp: Input)
    requires ValidConfig(cfg)
    ensures var o := SpawnerSegment(cfg, s, t, started, start, frame, inp);
            && !o.done
            && o.task.wait + 1 == GarbageDelayTics(s.year)
            && o.task.body.Spawner? && o.task.body.started
            && o.task.body.frame in cfg.garbageFrames
            && 0 <= o.task.body.start <= SpawnColumn(cfg.columns, o.task.body.frame, Uniform(0, cfg.columns, inp.rawColumn))
            && (started ==>
                  && o.spawned == [Task(s.nextId, 0, GarbageStart(start, frame, GarbageSpeed))]
                  && o.shared == s.(nextId := s.nextId + 1))
            && (!started ==> o.spawned == [] && o.shared == s)
  {
  }
}
