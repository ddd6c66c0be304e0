/** What one pass of animate_spaceship does to the ship's obstacle. */
module ShipLaws {
  import opened Lists
  import opened Geometry
  import opened Registry
  import opened Tasks

  /** run_spaceship's first resumption registers one Spaceship obstacle,
      sized by the first ship frame, at the start corner under the next
      identity, and enters animate_spaceship: frame 0, the speed updated from
      rest by the controls, and the corner moved by that speed. Nothing else
      in the shared state changes. */
  lemma ShipStartLaw(cfg: Config, s: Shared, tid: nat, row: real, column: real, inp: Input)
    requires ValidConfig(cfg)
    ensures var o := Resume(cfg, s, Task(tid, 0, ShipStart(row, column)), inp);
            var sp := cfg.updateSpeed(0.0, 0.0, inp.rowsDirection, inp.columnsDirection);
            && o.shared.obstacles
               == s.obstacles + [Obstacle(s.nextId, Spaceship, row, column,
                                          cfg.shipFrames[0].rows, cfg.shipFrames[0].columns)]
            && o.shared.nextId == s.nextId + 1
            && o.shared.collisions == s.collisions && o.shared.year == s.year && o.shared.life == s.life
            && !o.done && o.spawned == [] && o.task.id == tid && o.task.wait == 0
            && o.task.body == ShipFlying(s.nextId, row + sp.0, column + sp.1, sp.0, sp.1, 0, inp.spacePressed)
  {
  }

  /** After every pass the ship's registered box sits at the clamped corner
      of where the speed carried it: never above or left of the border, and
      fully inside when the frame fits the canvas. While life remains the
      next pass moves on from that corner, not from the unclamped one, with
      the next frame. */
  lemma ShipLandingLaw(cfg: Config, s: Shared, t: Task, id: nat, row: real, column: real,
                       rs: real, cs: real, k: nat, space: bool, inp: Input)
    requires ValidConfig(cfg) && s.life > 0
    ensures var o := ShipSegment(cfg, s, t, id, row, column, rs, cs, k, space, inp);
            var frame := ShipFrame(cfg, k);
            var p := ClampShip(cfg.rows, cfg.columns, frame, Pos(row, column));
            && Ids(o.shared.obstacles) == Ids(s.obstacles)
            && (forall i :: 0 <= i < |o.shared.obstacles| && o.shared.obstacles[i].id == id ==>
                  && o.shared.obstacles[i].row == p.row && o.shared.obstacles[i].column == p.column
                  && o.shared.obstacles[i].row >= BorderWidth as real
                  && o.shared.obstacles[i].column >= BorderWidth as real
                  && (FitsCanvas(cfg.rows, cfg.columns, frame) ==>
                        Inside(cfg.rows, cfg.columns, frame, Pos(o.shared.obstacles[i].row, o.shared.obstacles[i].column))))
            && !o.done && o.task.wait == 0
            && o.task.body.ShipFlying? && o.task.body.obstacle == id
            && o.task.body.frameIndex == (k + 1) % |cfg.shipFrames|
            && o.task.body.spacePressed == inp.spacePressed
            // the next pass moves on from the clamped corner, at the updated speed
            && (o.task.body.rowSpeed, o.task.body.columnSpeed)
               == cfg.updateSpeed(rs, cs, inp.rowsDirection, inp.columnsDirection)
            && o.task.body.row == p.row + o.task.body.rowSpeed
            && o.task.body.column == p.column + o.task.body.columnSpeed
  {
  }

  /** Once life is gone the ship keeps its obstacle through the explosion,
      removes it when the explosion ends, and then only shows the game-over
      banner. */
  lemma ShipDeathLaw(cfg: Config, s: Shared, t: Task, id: nat, row: real, column: real,
                     rs: real, cs: real, k: nat, space: bool, inp: Input)
    requires ValidConfig(cfg) && s.life <= 0
    requires Distinct(Ids(s.obstacles)) && id in Ids(s.obstacles)
    ensures var o := ShipSegment(cfg, s, t, id, row, column, rs, cs, k, space, inp);
            && !o.done
            && (cfg.explosionTicks > 0 ==>
                  o.task.body == ShipExploding(id) && o.task.wait + 1 == cfg.explosionTicks
                  && id in Ids(o.shared.obstacles))
            && (cfg.explosionTicks == 0 ==>
                  o.task.body == Idle && id !in Ids(o.shared.obstacles))
  {
    RemoveFirstOfDistinct(Ids(s.obstacles), id);
  }

  /** The resumption that ends the explosion removes the ship's obstacle. */
  lemma ShipExplodedLaw(cfg: Config, s: Shared, tid: nat, id: nat, inp: Input)
    requires ValidConfig(cfg)
    requires Distinct(Ids(s.obstacles)) && id in Ids(s.obstacles)
    ensures var o := Resume(cfg, s, Task(tid, 0, ShipExploding(id)), inp);
            && !o.done && o.task.body == Idle && o.task.id == tid && o.task.wait == 0 && o.spawned == []
            && o.shared.collisions == s.collisions && o.shared.year == s.year && o.shared.life == s.life
            && o.shared.nextId == s.nextId
            && Ids(o.shared.obstacles) == RemoveFirst(Ids(s.obstacles), id)
            && id !in Ids(o.shared.obstacles)
  {
    RemoveFirstOfDistinct(Ids(s.obstacles), id);
  }
}
