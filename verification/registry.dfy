/** The obstacle registry (main.py OBSTACLES): tagged bounding boxes that the
    tasks register, move, scan and remove. */
module Registry {
  import opened Lists

  /** The uid strings main.py gives its obstacles. */
  datatype Tag = Spaceship | Garbage | Shot

  /** A registered bounding box. `id` stands for the Python object's identity:
      `in` and `remove` on OBSTACLES are taken to compare objects by identity. */
  datatype Obstacle = Obstacle(id: nat, tag: Tag, row: real, column: real, rowsSize: nat, columnsSize: nat)

  /** The identities in registry order. */
  function Ids(obs: seq<Obstacle>): seq<nat>
  {
    seq(|obs|, i requires 0 <= i < |obs| => obs[i].id)
  }

  lemma IdsAppend(a: seq<Obstacle>, b: seq<Obstacle>)
    ensures Ids(a + b) == Ids(a) + Ids(b)
  {
  }

  /** `OBSTACLES.remove(obstacle)` for the obstacle with identity `id`. */
  function Unregister(obs: seq<Obstacle>, id: nat): (r: seq<Obstacle>)
    ensures Ids(r) == RemoveFirst(Ids(obs), id)
    ensures id !in Ids(obs) ==> r == obs
    ensures forall o :: o in r ==> o in obs
  {
    if id !in Ids(obs) then obs
    else
      var i := IndexOf(Ids(obs), id);
      var r := obs[..i] + obs[i + 1..];
      assert Ids(r) == Ids(obs)[..i] + Ids(obs)[i + 1..];
      r
  }

  /** The owning task writes its new corner into its registered obstacle
      (`obstacle.row = …` on the shared object). */
  function Move(obs: seq<Obstacle>, id: nat, row: real, column: real): (r: seq<Obstacle>)
    ensures Ids(r) == Ids(obs)
    ensures forall i :: 0 <= i < |r| ==> r[i].tag == obs[i].tag
    ensures forall i :: 0 <= i < |r| && obs[i].id != id ==> r[i] == obs[i]
    ensures forall i :: 0 <= i < |r| && obs[i].id == id ==> r[i] == obs[i].(row := row, column := column)
  {
    seq(|obs|, i requires 0 <= i < |obs| =>
      if obs[i].id == id then obs[i].(row := row, column := column) else obs[i])
  }

  /** Removing obstacle `id` keeps every obstacle with another identity. */
  lemma UnregisterKeepsOthers(obs: seq<Obstacle>, id: nat)
    ensures forall o :: o in obs && o.id != id ==> o in Unregister(obs, id)
  {
    if id in Ids(obs) {
      var i := IndexOf(Ids(obs), id);
      forall o | o in obs && o.id != id ensures o in Unregister(obs, id) {
        var j :| 0 <= j < |obs| && obs[j] == o;
        assert Ids(obs)[j] == o.id;
        if j < i {
          assert o == obs[..i][j];
        } else {
          assert o == obs[i + 1..][j - i - 1];
        }
      }
    }
  }

  /** Moving obstacle `id` keeps every obstacle with another identity. */
  lemma MoveKeepsOthers(obs: seq<Obstacle>, id: nat, row: real, column: real)
    ensures forall o :: o in obs && o.id != id ==> o in Move(obs, id, row, column)
  {
    forall o | o in obs && o.id != id ensures o in Move(obs, id, row, column) {
      var j :| 0 <= j < |obs| && obs[j] == o;
      assert Move(obs, id, row, column)[j] == o;
    }
  }

  /** The first registered obstacle carrying `tag` that `hit` says overlaps
      `box`: the `for obstacle in OBSTACLES: if obstacle.uid == … and
      obstacle.has_collision(…)` scans, which stop at the first match. */
  function FirstHit(obs: seq<Obstacle>, tag: Tag, box: Obstacle, hit: (Obstacle, Obstacle) -> bool): (r: Option<nat>)
    ensures r.None? <==> forall i :: 0 <= i < |obs| ==> !(obs[i].tag == tag && hit(obs[i], box))
    ensures r.Some? ==> exists i :: 0 <= i < |obs| && obs[i].id == r.value && obs[i].tag == tag && hit(obs[i], box)
                                    && forall j :: 0 <= j < i ==> !(obs[j].tag == tag && hit(obs[j], box))
  {
    if obs == [] then None
    else if obs[0].tag == tag && hit(obs[0], box) then Some(obs[0].id)
    else
      var r := FirstHit(obs[1..], tag, box, hit);
      assert forall i :: 1 <= i < |obs| ==> obs[i] == obs[1..][i - 1];
      if r.Some? then
        var k :| 0 <= k < |obs[1..]| && obs[1..][k].id == r.value && obs[1..][k].tag == tag && hit(obs[1..][k], box)
                 && forall j :: 0 <= j < k ==> !(obs[1..][j].tag == tag && hit(obs[1..][j], box));
        assert obs[k + 1] == obs[1..][k];
        r
      else r
  }
}
