/** Concrete frames on the level. */
module MovementScenarios {
  import opened Grid
  import opened Movement

  /** The program starts on a floor tile of the level. */
  lemma StartOnFloor()
    ensures BorderWalled(Map) && OnFloor(Map, Start)
  {
    MapIsBorderWalled();
  }

  /**
   Two perpendicular keys can put the target on a wall: from the start
   tile facing east, W checks (2, 1) and D checks (1, 2), both floor, so
   both moves are taken and the target lands on (2, 2), a wall that was
   never checked.
   */
  lemma TwoKeysCutIntoWall()
    ensures BorderWalled(Map)
    ensures Frame(Map, Start, Keys(false, false, true, false, false, true), true) == Target(2, 2, 0)
    ensures !OnFloor(Map, Target(2, 2, 0))
  {
    StartCorner();
    var keys := Keys(false, false, true, false, false, true);
    assert Heading(0) == Vec(1, 0);
    assert Checked(Start, keys, Forward) == Vec(2, 1);
    assert Checked(Start, keys, StrafeRight) == Vec(1, 2);
    assert Shift(Map, Start, keys, true, Forward) == Vec(1, 0);
    assert Shift(Map, Start, keys, true, StrafeRight) == Vec(0, 1);
    MovesAreIndependent(Map, Start, keys, true);
  }

  /** The cells around the start tile: (2, 1) and (1, 2) are floor, (2, 2) is a wall. */
  lemma StartCorner()
    ensures BorderWalled(Map)
    ensures IsFloor(Map, 2, 1) && IsFloor(Map, 1, 2) && IsWall(Map, 2, 2)
  {
    MapIsBorderWalled();
    assert Map[1][2] == 0 && Map[2][1] == 0 && Map[2][2] == 1;
  }

  /**
   Pressing E and holding W in the same frame from the start tile: the
   turn is applied first, so the move goes south, to the floor tile (1, 2).
   */
  lemma TurnAppliesBeforeMove()
    ensures BorderWalled(Map)
    ensures Frame(Map, Start, Keys(false, true, true, false, false, false), true) == Target(1, 2, 1)
  {
    MapIsBorderWalled();
    var keys := Keys(false, true, true, false, false, false);
    assert Turned(0, keys) == 1 && Heading(1) == Vec(0, 1);
    assert Only(keys, Forward);
    assert Map[2][1] == 0;
    SingleMove(Map, Start, keys, Forward, true);
  }

}
