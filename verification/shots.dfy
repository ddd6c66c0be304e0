/** What one resumption of fire does, and when the ship spawns one. */
module ShotLaws {
  import opened Lists
  import opened Geometry
  import opened Registry
  import opened Tasks
  import opened Ownership
  import opened Difficulty

  /** The ship appends a shot exactly when space was pressed during its last
      pass and the year is past GunYear; the shot is fire(row - 1, column + 2)
      with the default speeds, resumed first on the next tick, and it starts
      with the three yields of its muzzle flash. */
  lemma ShipFiresIff(cfg: Config, s: Shared, t: Task, id: nat, row: real, column: real,
                     rs: real, cs: real, k: nat, space: bool, inp: Input)
    requires ValidConfig(cfg)
    ensures var o := ShipSegment(cfg, s, t, id, row, column, rs, cs, k, space, inp);
            && (|o.spawned| == 1 <==> space && s.year > GunYear)
            && (|o.spawned| == 0 <==> !(space && s.year > GunYear))
            && (|o.spawned| == 1 ==>
                  && o.spawned[0].id == s.nextId && o.shared.nextId == s.nextId + 1
                  && o.spawned[0].wait == 3
                  && o.spawned[0].body == ShotArmed(row - 1.0, column + 2.0, -0.3, 0.0))
  {
  }

  /** After its muzzle flash the shot moves once, registers a one-cell
      obstacle there, and keeps flying only while strictly inside. */
  lemma ShotArmedLaw(cfg: Config, s: Shared, t: Task, row: real, column: real, rs: real, cs: real)
    requires RegistryOk(s)
    ensures var o := ShotArmedSegment(cfg, s, t, row, column, rs, cs);
            && o.shared.collisions == s.collisions && o.shared.life == s.life
            && (InFlight(cfg, row + rs, column + cs) ==>
                  && !o.done && o.task.wait == 0
                  && o.task.body == ShotFlying(s.nextId, row + rs, column + cs, rs, cs)
                  && o.shared.obstacles == s.obstacles + [Obstacle(s.nextId, Shot, row + rs, column + cs, 1, 1)])
            && (!InFlight(cfg, row + rs, column + cs) ==>
                  o.done && Ids(o.shared.obstacles) == Ids(s.obstacles))
  {
    RemoveFirstOfLast(Ids(s.obstacles), s.nextId);
  }

  /** The registry the shot scans after moving. */
  function Flown(s: Shared, id: nat, row: real, column: real): seq<Obstacle>
  {
    Move(s.obstacles, id, row, column)
  }

  /** The shot's first hit: the first garbage in registry order that `hit`
      reports is appended to the collision record, the shot's own obstacle
      is removed, and the shot ends. The garbage itself stays registered
      until its own next resumption. */
  lemma ShotHitLaw(cfg: Config, s: Shared, t: Task, id: nat, row: real, column: real, rs: real, cs: real, g: nat)
    requires Distinct(Ids(s.obstacles))
    requires FirstHit(Flown(s, id, row + rs, column + cs), Garbage, ShotBox(id, row + rs, column + cs), cfg.hit) == Some(g)
    requires forall i :: 0 <= i < |s.obstacles| && s.obstacles[i].id == id ==> s.obstacles[i].tag == Shot
    ensures var o := ShotSegment(cfg, s, t, id, row, column, rs, cs);
            && o.done
            && o.shared.collisions == s.collisions + [g]
            && o.shared.life == s.life
            && Ids(o.shared.obstacles) == RemoveFirst(Ids(s.obstacles), id)
            && id !in Ids(o.shared.obstacles)
            && g in Ids(o.shared.obstacles)
  {
    var obs := Flown(s, id, row + rs, column + cs);
    RemoveFirstOfDistinct(Ids(s.obstacles), id);
    var i :| 0 <= i < |obs| && obs[i].id == g && obs[i].tag == Garbage
             && cfg.hit(obs[i], ShotBox(id, row + rs, column + cs));
    assert Ids(obs)[i] == g;
    assert g != id;
    assert g in multiset(RemoveFirst(Ids(s.obstacles), id));
  }

  /** A miss leaves the record alone: the shot flies on while inside, and
      otherwise removes its obstacle and ends. */
  lemma ShotMissLaw(cfg: Config, s: Shared, t: Task, id: nat, row: real, column: real, rs: real, cs: real)
    requires Distinct(Ids(s.obstacles))
    requires FirstHit(Flown(s, id, row + rs, column + cs), Garbage, ShotBox(id, row + rs, column + cs), cfg.hit).None?
    ensures var o := ShotSegment(cfg, s, t, id, row, column, rs, cs);
            && o.shared.collisions == s.collisions && o.shared.life == s.life
            && (InFlight(cfg, row + rs, column + cs) ==>
                  && !o.done && o.task.wait == 0
                  && o.task.body == ShotFlying(id, row + rs, column + cs, rs, cs)
                  && Ids(o.shared.obstacles) == Ids(s.obstacles))
            && (!InFlight(cfg, row + rs, column + cs) ==> o.done && id !in Ids(o.shared.obstacles))
  {
    RemoveFirstOfDistinct(Ids(s.obstacles), id);
  }

  /** Whatever way fire leaves its loop, its obstacle is gone. */
  lemma ShotExitsClean(cfg: Config, s: Shared, t: Task, id: nat, row: real, column: real, rs: real, cs: real)
    requires Distinct(Ids(s.obstacles)) && id in Ids(s.obstacles)
    ensures var o := ShotSegment(cfg, s, t, id, row, column, rs, cs);
            && (o.done <==> id !in Ids(o.shared.obstacles))
            && (!o.done ==> o.task.body.ShotFlying? && o.task.body.obstacle == id)
  {
    RemoveFirstOfDistinct(Ids(s.obstacles), id);
  }
}
