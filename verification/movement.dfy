/**
 The target-pose update of the frame loop (main.c:88, 96-121).

 The target position is always a tile centre, `TILE_SIZE*1.5 + k*TILE_SIZE`
 pixels, and its angle is always a whole number of quarter turns from 0,
 so the target is modelled as a tile (col, row) and a quarter-turn count.
 Key states and the arrival test `isThere` are boolean inputs.
 */
module Movement {
  import opened CArith
  import opened Grid

  /** The target pose: its tile, and its angle as a count of quarter turns (angle = turns * pi/2). */
  datatype Target = Target(col: int, row: int, turns: int)

  /** Q and E pressed this frame; W, S, A, D held. */
  datatype Keys = Keys(q: bool, e: bool, w: bool, s: bool, a: bool, d: bool)

  /** An integer vector in tiles: `(tcos, tsin)` and the move offsets. */
  datatype Vec = Vec(dx: int, dy: int)

  datatype Move = Forward | Back | StrafeLeft | StrafeRight

  /** The pose the program starts in: tile (1, 1), angle 0 (main.c:88-89). */
  const Start: Target := Target(1, 1, 0)

  /** One of the four unit cardinal vectors (1, 0), (0, 1), (-1, 0), (0, -1). */
  predicate Cardinal(v: Vec) {
    -1 <= v.dx <= 1 && -1 <= v.dy <= 1 && (v.dx == 0) != (v.dy == 0)
  }

  /**
   `(tcos, tsin)` = `(round(cos a), round(sin a))` for a = turns * pi/2
   (main.c:101-102): cos and sin of a whole number of quarter turns are
   exact, and depend only on turns mod 4 (Euclidean, so also for negative
   counts).
   */
  function Heading(turns: int): (h: Vec)
    ensures Cardinal(h)
    ensures turns % 4 == 0 <==> h == Vec(1, 0)
  {
    match turns % 4
    case 0 => Vec(1, 0)
    case 1 => Vec(0, 1)
    case 2 => Vec(-1, 0)
    case _ => Vec(0, -1)
  }

  /** A quarter turn rotates the heading by +90 degrees: (c, s) becomes (-s, c). */
  lemma QuarterTurnRotates(turns: int)
    ensures Heading(turns + 1) == Vec(-Heading(turns).dy, Heading(turns).dx)
    ensures Heading(turns - 1) == Vec(Heading(turns).dy, -Heading(turns).dx)
  {
    var r := turns % 4;
    assert (turns + 1) % 4 == (r + 1) % 4;
    assert (turns - 1) % 4 == (r + 3) % 4;
  }

  /** Four quarter turns bring the heading back. */
  lemma HeadingPeriodic(turns: int)
    ensures Heading(turns + 4) == Heading(turns)
  {
    assert (turns + 4) % 4 == turns % 4;
  }

  /**
   The tile offset each move key applies, relative to heading (tcos, tsin)
   (main.c:106-121): W forward, S backward, A to the left
   (`(tsin, -tcos)`), D to the right (`(-tsin, tcos)`).
   */
  function Offset(m: Move, h: Vec): (o: Vec)
    requires Cardinal(h)
    ensures Cardinal(o)
    ensures m == Forward ==> o == h
  {
    match m
    case Forward => h
    case Back => Vec(-h.dx, -h.dy)
    case StrafeLeft => Vec(h.dy, -h.dx)
    case StrafeRight => Vec(-h.dy, h.dx)
  }

  /** Strafing left is moving forward after a quarter turn back; strafing right, after a quarter turn on. */
  lemma StrafeIsTurnedForward(turns: int)
    ensures Offset(StrafeLeft, Heading(turns)) == Offset(Forward, Heading(turns - 1))
    ensures Offset(StrafeRight, Heading(turns)) == Offset(Forward, Heading(turns + 1))
    ensures Offset(Back, Heading(turns)) == Offset(Forward, Heading(turns + 2))
  {
    QuarterTurnRotates(turns);
    QuarterTurnRotates(turns + 1);
  }

  function Held(keys: Keys, m: Move): (held: bool) {
    match m
    case Forward => keys.w
    case Back => keys.s
    case StrafeLeft => keys.a
    case StrafeRight => keys.d
  }

  /** The quarter-turn count after this frame's Q (-pi/2) and E (+pi/2) presses (main.c:98-99). */
  function Turned(turns: int, keys: Keys): (k: int) {
    turns - (if keys.q then 1 else 0) + (if keys.e then 1 else 0)
  }

  /** The cell key `m` looks up: next to the frame-start tile (tposx, tposy), along its offset. */
  function Checked(t: Target, keys: Keys, m: Move): (c: Vec) {
    var o := Offset(m, Heading(Turned(t.turns, keys)));
    Vec(t.col + o.dx, t.row + o.dy)
  }

  /**
   The guard of one move (one `if` of main.c:106-121): the key is held, the
   target has arrived, and the cell it looks up is floor.
   */
  predicate Accepts(g: seq<seq<int>>, t: Target, keys: Keys, isThere: bool, m: Move)
    requires Shaped(g) && Interior(t.col, t.row)
  {
    Held(keys, m) && isThere && IsFloor(g, Checked(t, keys, m).dx, Checked(t, keys, m).dy)
  }

  /** Shift `p` by `d` when `taken`: the body of one guarded move. */
  function Step(taken: bool, p: Vec, d: Vec): (q: Vec) {
    if taken then Vec(p.dx + d.dx, p.dy + d.dy) else p
  }

  /**
   The frame step (main.c:96-121): turns first, so the heading
   `(tcos, tsin)` the moves use is the new one; then W, S, A, D in that
   order, each guarded by its own lookup next to the frame-start tile.
   Turning does not depend on arrival and never moves the target, and
   nothing moves while the target has not arrived or no move key is held.
   */
  function Frame(g: seq<seq<int>>, t: Target, keys: Keys, isThere: bool): (t': Target)
    requires BorderWalled(g) && Interior(t.col, t.row)
    ensures t'.turns == Turned(t.turns, keys)
    ensures !isThere ==> t'.col == t.col && t'.row == t.row
    ensures !(keys.w || keys.s || keys.a || keys.d) ==> t'.col == t.col && t'.row == t.row
  {
    var turns := Turned(t.turns, keys);
    var h := Heading(turns);
    var p1 := Step(Accepts(g, t, keys, isThere, Forward), Vec(t.col, t.row), Offset(Forward, h));
    var p2 := Step(Accepts(g, t, keys, isThere, Back), p1, Offset(Back, h));
    var p3 := Step(Accepts(g, t, keys, isThere, StrafeLeft), p2, Offset(StrafeLeft, h));
    var p4 := Step(Accepts(g, t, keys, isThere, StrafeRight), p3, Offset(StrafeRight, h));
    Target(p4.dx, p4.dy, turns)
  }

  /** What move `m` contributes to the frame: its offset if its guard holds, nothing otherwise. */
  function Shift(g: seq<seq<int>>, t: Target, keys: Keys, isThere: bool, m: Move): (v: Vec)
    requires Shaped(g) && Interior(t.col, t.row)
    ensures v == Vec(0, 0) || v == Offset(m, Heading(Turned(t.turns, keys)))
    ensures v != Vec(0, 0) <==> Accepts(g, t, keys, isThere, m)
  {
    if Accepts(g, t, keys, isThere, m) then Offset(m, Heading(Turned(t.turns, keys))) else Vec(0, 0)
  }

  /**
   The four moves do not interact: each is decided on the frame-start tile
   alone, and the target ends up at that tile plus the sum of the moves
   taken, in whatever order they are applied.
   */
  lemma MovesAreIndependent(g: seq<seq<int>>, t: Target, keys: Keys, isThere: bool)
    requires BorderWalled(g) && Interior(t.col, t.row)
    ensures var f := Shift(g, t, keys, isThere, Forward);
      var b := Shift(g, t, keys, isThere, Back);
      var l := Shift(g, t, keys, isThere, StrafeLeft);
      var r := Shift(g, t, keys, isThere, StrafeRight);
      Frame(g, t, keys, isThere) ==
        Target(t.col + f.dx + b.dx + l.dx + r.dx, t.row + f.dy + b.dy + l.dy + r.dy, Turned(t.turns, keys))
  {
  }

  /** A move is only taken onto floor, which in a border-walled grid is interior. */
  lemma AcceptedIsInterior(g: seq<seq<int>>, t: Target, keys: Keys, isThere: bool, m: Move)
    requires BorderWalled(g) && Interior(t.col, t.row)
    ensures var o := Offset(m, Heading(Turned(t.turns, keys)));
      var v := Shift(g, t, keys, isThere, m);
      v == Vec(0, 0) || (v == o && Interior(t.col + o.dx, t.row + o.dy))
  {
    OpenCellIsInterior(g, Checked(t, keys, m).dx, Checked(t, keys, m).dy);
  }

  /**
   The target moves at most one tile along each axis, and from an interior
   tile it stays on an interior tile whatever keys are held: a move is
   taken only when the cell it checked is floor, hence interior, and the
   two keys of one axis (W and S, or A and D) at most cancel out. So every
   lookup of this and later frames is in bounds.
   */
  lemma FrameStaysInterior(g: seq<seq<int>>, t: Target, keys: Keys, isThere: bool)
    requires BorderWalled(g) && Interior(t.col, t.row)
    ensures var t' := Frame(g, t, keys, isThere);
      && -1 <= t'.col - t.col <= 1 && -1 <= t'.row - t.row <= 1
      && Interior(t'.col, t'.row)
  {
    MovesAreIndependent(g, t, keys, isThere);
    AcceptedIsInterior(g, t, keys, isThere, Forward);
    AcceptedIsInterior(g, t, keys, isThere, Back);
    AcceptedIsInterior(g, t, keys, isThere, StrafeLeft);
    AcceptedIsInterior(g, t, keys, isThere, StrafeRight);
    SumStaysInterior(Vec(t.col, t.row), Heading(Turned(t.turns, keys)),
      Shift(g, t, keys, isThere, Forward), Shift(g, t, keys, isThere, Back),
      Shift(g, t, keys, isThere, StrafeLeft), Shift(g, t, keys, isThere, StrafeRight));
  }

  /**
   The arithmetic behind `FrameStaysInterior`: four optional unit steps
   from an interior tile, forward, back, left and right of a cardinal
   heading, each taken only onto an interior tile, sum to an interior tile
   at most one step away on each axis.
   */
  lemma SumStaysInterior(o: Vec, h: Vec, f: Vec, b: Vec, l: Vec, r: Vec)
    requires Interior(o.dx, o.dy) && Cardinal(h)
    requires f == Vec(0, 0) || (f == h && Interior(o.dx + h.dx, o.dy + h.dy))
    requires b == Vec(0, 0) || (b == Vec(-h.dx, -h.dy) && Interior(o.dx - h.dx, o.dy - h.dy))
    requires l == Vec(0, 0) || (l == Vec(h.dy, -h.dx) && Interior(o.dx + h.dy, o.dy - h.dx))
    requires r == Vec(0, 0) || (r == Vec(-h.dy, h.dx) && Interior(o.dx - h.dy, o.dy + h.dx))
    ensures var x, y := o.dx + f.dx + b.dx + l.dx + r.dx, o.dy + f.dy + b.dy + l.dy + r.dy;
      -1 <= x - o.dx <= 1 && -1 <= y - o.dy <= 1 && Interior(x, y)
  {
    if h.dx == 0 {
      assert f.dx == 0 && b.dx == 0;
    } else {
      assert f.dy == 0 && b.dy == 0;
    }
  }

  /** Only move key `m` is held (Q and E may be pressed). */
  predicate Only(keys: Keys, m: Move) {
    forall other: Move :: Held(keys, other) <==> other == m
  }

  /** No move key, or exactly one, is held. */
  predicate AtMostOneMove(keys: Keys) {
    !(keys.w || keys.s || keys.a || keys.d) || exists m: Move :: Only(keys, m)
  }

  /**
   A single held move key moves the target by exactly one tile in that
   key's direction (relative to the heading after this frame's turns) if
   and only if the target has arrived and the destination cell is floor;
   otherwise only the turn count changes.
   */
  lemma SingleMove(g: seq<seq<int>>, t: Target, keys: Keys, m: Move, isThere: bool)
    requires BorderWalled(g) && Interior(t.col, t.row) && Only(keys, m)
    ensures var turns := Turned(t.turns, keys);
      var o := Offset(m, Heading(turns));
      Frame(g, t, keys, isThere) ==
        if isThere && IsFloor(g, t.col + o.dx, t.row + o.dy)
        then Target(t.col + o.dx, t.row + o.dy, turns)
        else Target(t.col, t.row, turns)
  {
    MovesAreIndependent(g, t, keys, isThere);
    OnlyOneShift(g, t, keys, isThere, m);
    match m
    case Forward =>
    case Back =>
    case StrafeLeft =>
    case StrafeRight =>
  }

  /** With only key `m` held, its move is the only one that can be taken. */
  lemma OnlyOneShift(g: seq<seq<int>>, t: Target, keys: Keys, isThere: bool, m: Move)
    requires BorderWalled(g) && Interior(t.col, t.row) && Only(keys, m)
    ensures var o := Offset(m, Heading(Turned(t.turns, keys)));
      Shift(g, t, keys, isThere, m) == if isThere && IsFloor(g, t.col + o.dx, t.row + o.dy) then o else Vec(0, 0)
    ensures forall other: Move :: other != m ==> Shift(g, t, keys, isThere, other) == Vec(0, 0)
  {
    assert Held(keys, m);
    forall other: Move | other != m
      ensures Shift(g, t, keys, isThere, other) == Vec(0, 0)
    {
      assert !Held(keys, other);
    }
  }

  /** The target stands on a floor tile (which, with the border walls, is interior). */
  predicate OnFloor(g: seq<seq<int>>, t: Target)
    requires Shaped(g)
  {
    InGrid(t.col, t.row) && IsFloor(g, t.col, t.row)
  }

  /**
   With at most one move key held, a target on a floor tile stays on a
   floor tile: the only cell it can move to is the one that was checked.
   */
  lemma OneKeyKeepsOnFloor(g: seq<seq<int>>, t: Target, keys: Keys, isThere: bool)
    requires BorderWalled(g) && OnFloor(g, t) && AtMostOneMove(keys)
    ensures Interior(t.col, t.row)
    ensures OnFloor(g, Frame(g, t, keys, isThere))
  {
    OpenCellIsInterior(g, t.col, t.row);
    if keys.w || keys.s || keys.a || keys.d {
      var m :| Only(keys, m);
      SingleMove(g, t, keys, m, isThere);
      FloorAfterSingleMove(g, t, keys, isThere, m);
    }
  }

  /** The one-key case of `OneKeyKeepsOnFloor`: the target either stays or moves onto the floor cell it checked. */
  lemma FloorAfterSingleMove(g: seq<seq<int>>, t: Target, keys: Keys, isThere: bool, m: Move)
    requires BorderWalled(g) && Interior(t.col, t.row) && IsFloor(g, t.col, t.row) && Only(keys, m)
    requires var turns := Turned(t.turns, keys);
      var o := Offset(m, Heading(turns));
      Frame(g, t, keys, isThere) ==
        if isThere && IsFloor(g, t.col + o.dx, t.row + o.dy)
        then Target(t.col + o.dx, t.row + o.dy, turns)
        else Target(t.col, t.row, turns)
    ensures OnFloor(g, Frame(g, t, keys, isThere))
  {
  }

  /** The pixel coordinate of the centre of tile `tile`: `TILE_SIZE*1.5 + (tile-1)*TILE_SIZE`. */
  function Centre(tile: int): (x: real) {
    (TileSize * tile) as real + (TileSize as real) / 2.0
  }

  /** The tile index `(int)x / TILE_SIZE` of a pixel coordinate (main.c:104-105). */
  function TileIndex(x: real): (tile: int) {
    Quot(Trunc(x), TileSize)
  }

  /**
   The tile abstraction is exact: a target starts on a tile centre and moves
   by whole tiles (`tcos * TILE_SIZE`, main.c:107-120), so it stays on tile
   centres, and the frame-start tile index recovers the tile.
   */
  lemma CentreRoundTrip(tile: int, d: int)
    requires tile >= 0
    ensures TileIndex(Centre(tile)) == tile
    ensures Centre(tile) + (d * TileSize) as real == Centre(tile + d)
  {
    var c := TileSize * tile + TileSize / 2;
    assert Centre(tile) == c as real;
    assert Trunc(c as real) == c;
  }

}
