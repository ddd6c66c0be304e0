/** The game's coroutines as explicit task states, and one resumption of a
    task as a pure step over the shared world state. */
module Tasks {
  import opened Lists
  import opened Geometry
  import opened Registry
  import opened Difficulty

  /** The collaborators the model does not see, and the canvas size.
      `hit(o, box)` stands for `o.has_collision(box's corner and size)`
      (obstacles.py), `updateSpeed` for physics.update_speed, and
      `explosionTicks` for the number of times explosion.explode suspends. */
  datatype Config = Config(
    rows: nat,
    columns: nat,
    garbageFrames: seq<Size>,
    shipFrames: seq<Size>,
    explosionTicks: nat,
    hit: (Obstacle, Obstacle) -> bool,
    updateSpeed: (real, real, int, int) -> (real, real))

  /** load_frames found at least one garbage frame and one ship frame. */
  predicate ValidConfig(cfg: Config) {
    |cfg.garbageFrames| > 0 && |cfg.shipFrames| > 0
  }

  /** What a task may read from outside during one resumption: the keyboard
      (read_controls) and the spawner's three random draws. */
  datatype Input = Input(
    rowsDirection: int, columnsDirection: int, spacePressed: bool,
    rawColumn: nat, rawFrame: nat, rawStart: nat)

  /** The module-level globals the tasks share. `nextId` hands out identities
      to new obstacles and new tasks. */
  datatype Shared = Shared(
    obstacles: seq<Obstacle>,
    collisions: seq<nat>,
    year: int,
    life: int,
    nextId: nat)

  /** Default speed of fly_garbage and fire. */
  const GarbageSpeed: real := 0.5
  const ShotRowsSpeed: real := -0.3
  const ShotColumnsSpeed: real := 0.0

  /** Where each coroutine is suspended, with its local variables. */
  datatype Body =
      /** blink, show_phrase, and show_game_over's banner loop: draw and sleep, forever. */
    | Idle
      /** change_year; `started` once the first sleep(15) has begun. */
    | Clock(started: bool)
      /** fill_orbit_with_garbage, sleeping before it launches garbage at `start`. */
    | Spawner(started: bool, start: int, frame: Size)
      /** fly_garbage before its first resumption; `lane` is its requested column. */
    | GarbageStart(lane: int, frame: Size, speed: real)
      /** fly_garbage sleeping inside its `while row < rows_number` loop. */
    | GarbageFalling(obstacle: nat, row: real, lane: int, frame: Size, speed: real)
      /** fly_garbage inside `explode`, its obstacle already removed. */
    | GarbageBlast
      /** fire during the muzzle flash, before it registers its obstacle. */
    | ShotArmed(row: real, column: real, rowsSpeed: real, columnsSpeed: real)
      /** fire sleeping inside its flight loop. */
    | ShotFlying(obstacle: nat, row: real, column: real, rowsSpeed: real, columnsSpeed: real)
      /** run_spaceship before its first resumption. */
    | ShipStart(row: real, column: real)
      /** animate_spaceship sleeping after drawing frame number `frameIndex` at
          the unclamped corner (row, column). */
    | ShipFlying(obstacle: nat, row: real, column: real, rowSpeed: real, columnSpeed: real,
                 frameIndex: nat, spacePressed: bool)
      /** animate_spaceship inside `explode`, its obstacle still registered. */
    | ShipExploding(obstacle: nat)

  /** A coroutine: identity, the remaining yields of its current sleep, and
      where it will continue. */
  datatype Task = Task(id: nat, wait: nat, body: Body)

  /** Result of one resumption: the new shared state, the task's new state,
      the tasks it appended to COROUTINES, and whether it returned. */
  datatype Outcome = Outcome(shared: Shared, task: Task, spawned: seq<Task>, done: bool)

  /** The obstacle a task holds registered while suspended in `b`. */
  function Owns(b: Body): multiset<nat>
  {
    match b
    case GarbageFalling(id, _, _, _, _) => multiset{id}
    case ShotFlying(id, _, _, _, _) => multiset{id}
    case ShipFlying(id, _, _, _, _, _, _) => multiset{id}
    case ShipExploding(id) => multiset{id}
    case _ => multiset{}
  }

  /** The obstacle a task still holds after a resumption. */
  function Holds(o: Outcome): multiset<nat>
  {
    if o.done then multiset{} else Owns(o.task.body)
  }

  /** `await sleep(n)`: the current resumption is the first of the n yields. */
  function Suspend(s: Shared, t: Task, n: nat, b: Body, spawned: seq<Task>): (o: Outcome)
    requires n >= 1
    ensures !o.done && o.task.id == t.id && o.task.wait + 1 == n && o.task.body == b
  {
    Outcome(s, Task(t.id, n - 1, b), spawned, false)
  }

  /** The coroutine returns; the scheduler removes it. */
  function Finish(s: Shared, t: Task, spawned: seq<Task>): (o: Outcome)
    ensures o.done && o.task.id == t.id
  {
    Outcome(s, t, spawned, true)
  }

  /** Register a new obstacle under the next identity. */
  function Register(s: Shared, tag: Tag, row: real, column: real, size: Size): (s': Shared)
    ensures Ids(s'.obstacles) == Ids(s.obstacles) + [s.nextId]
    ensures s'.nextId == s.nextId + 1
    ensures s' == s.(obstacles := s.obstacles + [Obstacle(s.nextId, tag, row, column, size.rows, size.columns)],
                     nextId := s.nextId + 1)
  {
    var o := Obstacle(s.nextId, tag, row, column, size.rows, size.columns);
    IdsAppend(s.obstacles, [o]);
    s.(obstacles := s.obstacles + [o], nextId := s.nextId + 1)
  }

  /** `if obstacle in OBSTACLES: OBSTACLES.remove(obstacle)`. */
  function Drop(s: Shared, id: nat): Shared
  {
    s.(obstacles := Unregister(s.obstacles, id))
  }

  /** One resumption of `t`: a pending yield of its sleep is consumed, or the
      coroutine runs to its next suspension point or its end. */
  function Resume(cfg: Config, s: Shared, t: Task, inp: Input): (o: Outcome)
    requires ValidConfig(cfg)
    ensures o.task.id == t.id
    ensures o.shared.year == s.year + (if t.wait == 0 && t.body == Clock(true) then 1 else 0)
    ensures o.shared.life == s.life
            || (o.shared.life == s.life - 1 && t.wait == 0 && t.body.GarbageFalling? && o.done)
    // change_year never returns and never appends; no other coroutine becomes
    // a change_year, and none is appended
    ensures t.body.Clock? ==>
              && !o.done && o.spawned == []
              && o.task == (if t.wait > 0 then t.(wait := t.wait - 1) else Task(t.id, TicksPerYear - 1, Clock(true)))
    ensures !t.body.Clock? ==> o.done || !o.task.body.Clock?
    ensures forall i :: 0 <= i < |o.spawned| ==> !o.spawned[i].body.Clock?
  {
    if t.wait > 0 then Outcome(s, t.(wait := t.wait - 1), [], false)
    else
      match t.body
      case Idle => Suspend(s, t, 1, Idle, [])
      case Clock(started) => ClockSegment(s, t, started)
      case Spawner(started, start, frame) => SpawnerSegment(cfg, s, t, started, start, frame, inp)
      case GarbageStart(column, frame, speed) => GarbageStartSegment(cfg, s, t, column, frame, speed)
      case GarbageFalling(id, row, column, frame, speed) => GarbageSegment(cfg, s, t, id, row, column, frame, speed)
      case GarbageBlast => Finish(s, t, [])
      case ShotArmed(row, column, rs, cs) => ShotArmedSegment(cfg, s, t, row, column, rs, cs)
      case ShotFlying(id, row, column, rs, cs) => ShotSegment(cfg, s, t, id, row, column, rs, cs)
      case ShipStart(row, column) => ShipStartSegment(cfg, s, t, row, column, inp)
      case ShipFlying(id, row, column, rs, cs, k, space) => ShipSegment(cfg, s, t, id, row, column, rs, cs, k, space, inp)
      case ShipExploding(id) => Suspend(Drop(s, id), t, 1, Idle, [])
  }

  // ---------------------------------------------------------------- clock

  /** change_year: after each completed sleep(15) the year goes up by one. */
  function ClockSegment(s: Shared, t: Task, started: bool): Outcome
  {
    var s' := if started then s.(year := s.year + 1) else s;
    Suspend(s', t, TicksPerYear, Clock(true), [])
  }

  // -------------------------------------------------------------- spawner

  /** fill_orbit_with_garbage: launch the garbage chosen before the sleep
      (when there was one), draw the next column, frame and start column,
      and sleep for the current year's delay. */
  function SpawnerSegment(cfg: Config, s: Shared, t: Task, started: bool, start: int, frame: Size,
                          inp: Input): Outcome
    requires ValidConfig(cfg)
  {
    var launched := if started then [Task(s.nextId, 0, GarbageStart(start, frame, GarbageSpeed))] else [];
    var s1 := if started then s.(nextId := s.nextId + 1) else s;
    var next := cfg.garbageFrames[inp.rawFrame % |cfg.garbageFrames|];
    var nextStart := SpawnStart(cfg.columns, next, inp.rawColumn, inp.rawStart);
    Suspend(s1, t, GarbageDelayTics(s1.year), Spawner(true, nextStart, next), launched)
  }

  // -------------------------------------------------------------- garbage

  /** fly_garbage up to its first sleep: clamp the column, register the
      obstacle at row 0, and enter the loop if the canvas has a row. */
  function GarbageStartSegment(cfg: Config, s: Shared, t: Task, column: int, frame: Size, speed: real): Outcome
  {
    var col := GarbageColumn(cfg.columns, column);
    var id := s.nextId;
    var s1 := Register(s, Garbage, 0.0, col as real, frame);
    if 0.0 < cfg.rows as real then Suspend(s1, t, 1, GarbageFalling(id, 0.0, col, frame, speed), [])
    else Finish(Drop(s1, id), t, [])
  }

  /** The garbage's box after moving to `row`. */
  function GarbageBox(id: nat, row: real, column: int, frame: Size): Obstacle
  {
    Obstacle(id, Garbage, row, column as real, frame.rows, frame.columns)
  }

  /** Some ship obstacle overlaps the box. */
  predicate ShipHit(cfg: Config, obs: seq<Obstacle>, box: Obstacle)
  {
    FirstHit(obs, Spaceship, box, cfg.hit).Some?
  }

  /** One pass of fly_garbage's loop after its sleep: move down, then the
      ship check, then the collision-record check, then the loop condition. */
  function GarbageSegment(cfg: Config, s: Shared, t: Task, id: nat, row: real, column: int, frame: Size,
                          speed: real): Outcome
  {
    var row' := row + speed;
    var s1 := s.(obstacles := Move(s.obstacles, id, row', column as real));
    if ShipHit(cfg, s1.obstacles, GarbageBox(id, row', column, frame)) then
      Finish(Drop(s1.(life := s1.life - 1), id), t, [])
    else if id in s1.collisions then
      var s2 := Drop(s1, id).(collisions := RemoveFirst(s1.collisions, id));
      if cfg.explosionTicks > 0 then Suspend(s2, t, cfg.explosionTicks, GarbageBlast, [])
      else Finish(s2, t, [])
    else if row' < cfg.rows as real then
      Suspend(s1, t, 1, GarbageFalling(id, row', column, frame, speed), [])
    else Finish(Drop(s1, id), t, [])
  }

  // ---------------------------------------------------------------- shots

  /** The shot's one-cell box at (row, column) (`symbol` is a single character). */
  function ShotBox(id: nat, row: real, column: real): Obstacle
  {
    Obstacle(id, Shot, row, column, 1, 1)
  }

  /** fire's loop condition: strictly inside the canvas on both axes. */
  predicate InFlight(cfg: Config, row: real, column: real)
  {
    0.0 < row < (cfg.rows - 1) as real && 0.0 < column < (cfg.columns - 1) as real
  }

  /** fire after the muzzle flash: first move, register a one-cell obstacle,
      and enter the flight loop if still inside. */
  function ShotArmedSegment(cfg: Config, s: Shared, t: Task, row: real, column: real, rs: real, cs: real): Outcome
  {
    var row' := row + rs;
    var column' := column + cs;
    var id := s.nextId;
    var s1 := Register(s, Shot, row', column', Size(1, 1));
    if InFlight(cfg, row', column') then Suspend(s1, t, 1, ShotFlying(id, row', column', rs, cs), [])
    else Finish(Drop(s1, id), t, [])
  }

  /** One pass of fire's flight loop after its sleep: move, scan for the first
      garbage hit (record it and end), else test the loop condition. */
  function ShotSegment(cfg: Config, s: Shared, t: Task, id: nat, row: real, column: real, rs: real, cs: real): Outcome
  {
    var row' := row + rs;
    var column' := column + cs;
    var s1 := s.(obstacles := Move(s.obstacles, id, row', column'));
    match FirstHit(s1.obstacles, Garbage, ShotBox(id, row', column'), cfg.hit)
    case Some(g) => Finish(Drop(s1.(collisions := s1.collisions + [g]), id), t, [])
    case None =>
      if InFlight(cfg, row', column') then Suspend(s1, t, 1, ShotFlying(id, row', column', rs, cs), [])
      else Finish(Drop(s1, id), t, [])
  }

  /** The shot run_spaceship appends: fire(row - 1, column + 2) with the
      default speeds, three yields of muzzle flash before it registers. */
  function NewShot(id: nat, row: real, column: real): Task
  {
    Task(id, 3, ShotArmed(row - 1.0, column + 2.0, ShotRowsSpeed, ShotColumnsSpeed))
  }

  // ----------------------------------------------------------------- ship

  /** Read the controls, update the speed, move, draw frame `k`, sleep. */
  function ShipAdvance(cfg: Config, s: Shared, t: Task, id: nat, row: real, column: real,
                       rs: real, cs: real, k: nat, inp: Input, spawned: seq<Task>): Outcome
  {
    var speed := cfg.updateSpeed(rs, cs, inp.rowsDirection, inp.columnsDirection);
    Suspend(s, t, 1, ShipFlying(id, row + speed.0, column + speed.1, speed.0, speed.1, k, inp.spacePressed), spawned)
  }

  /** run_spaceship: register the ship at its start corner, then the first
      pass of animate_spaceship. */
  function ShipStartSegment(cfg: Config, s: Shared, t: Task, row: real, column: real, inp: Input): Outcome
    requires ValidConfig(cfg)
  {
    var id := s.nextId;
    var s1 := Register(s, Spaceship, row, column, cfg.shipFrames[0]);
    ShipAdvance(cfg, s1, t, id, row, column, 0.0, 0.0, 0, inp, [])
  }

  /** Rest of an animate_spaceship pass after its sleep: fire if allowed,
      then land the ship. */
  function ShipSegment(cfg: Config, s: Shared, t: Task, id: nat, row: real, column: real,
                       rs: real, cs: real, k: nat, space: bool, inp: Input): Outcome
    requires ValidConfig(cfg)
  {
    var fires := space && s.year > GunYear;
    var shots := if fires then [NewShot(s.nextId, row, column)] else [];
    var s1 := if fires then s.(nextId := s.nextId + 1) else s;
    ShipLanding(cfg, s1, t, id, row, column, rs, cs, k, inp, shots)
  }

  /** The frame animate_spaceship draws on its `k`-th pass (itertools.cycle). */
  function ShipFrame(cfg: Config, k: nat): Size
    requires ValidConfig(cfg)
  {
    cfg.shipFrames[k % |cfg.shipFrames|]
  }

  /** Clamp the corner, move the obstacle, test life; then the next pass. */
  function ShipLanding(cfg: Config, s: Shared, t: Task, id: nat, row: real, column: real,
                       rs: real, cs: real, k: nat, inp: Input, shots: seq<Task>): Outcome
    requires ValidConfig(cfg)
  {
    var p := ClampShip(cfg.rows, cfg.columns, ShipFrame(cfg, k), Pos(row, column));
    var s1 := s.(obstacles := Move(s.obstacles, id, p.row, p.column));
    if s1.life <= 0 then
      if cfg.explosionTicks > 0 then Suspend(s1, t, cfg.explosionTicks, ShipExploding(id), shots)
      else Suspend(Drop(s1, id), t, 1, Idle, shots)
    else ShipAdvance(cfg, s1, t, id, p.row, p.column, rs, cs, (k + 1) % |cfg.shipFrames|, inp, shots)
  }
}
