/**
 The grid walk at the heart of `CastRay` (main.c:32-71): from the player's
 cell, step one cell at a time across whichever grid line the ray meets
 first, until a wall is entered or the walked distance reaches 10 tiles.

 The trigonometry is abstracted: the direction components `dirX`, `dirY`
 (the source's `cos`/`sin` of the ray angle) are plain real parameters,
 and floats are exact reals. Distances are in tile units.
 */
module Dda {
  import opened Wrappers
  import opened CArith
  import opened Grid

  /** Stand-in length for an axis the ray never crosses (a zero direction component). */
  const Sentinel: real := 10000.0

  /** The search cap `maxDistance`. */
  const MaxDistance: real := 10.0

  /** Which kind of grid line the last step crossed: `side` 0 or 1 in the source. */
  datatype Side = XSide | YSide

  /** What stays fixed during one walk: per-axis tile-crossing length and step. */
  datatype Ray = Ray(rayLengthX: real, rayLengthY: real, stepX: int, stepY: int)

  /** The loop state: current cell and the distance at which each axis's next grid line is met. */
  datatype Walker = Walker(mapX: int, mapY: int, startDistX: real, startDistY: real)

  /** A ray and the walker it starts from. */
  datatype Launch = Launch(ray: Ray, start: Walker)

  /** One iteration's outcome: the new state, the `distance` it records and the `side` it sets. */
  datatype Advanced = Advanced(next: Walker, distance: real, side: Side)

  /** The loop's exit state: `hit`, `side`, `distance` and the last cell entered. */
  datatype Stop = Stop(hit: bool, side: Side, distance: real, mapX: int, mapY: int)

  /** What the caller draws from: a wall band at `distance`, shaded by `side`. */
  datatype Hit = Hit(distance: real, side: Side)

  predicate ValidRay(ray: Ray) {
    && (ray.stepX == -1 || ray.stepX == 1)
    && (ray.stepY == -1 || ray.stepY == 1)
    && ray.rayLengthX > 0.0
    && ray.rayLengthY > 0.0
  }

  function Min(a: real, b: real): (m: real)
    ensures m <= a && m <= b && (m == a || m == b)
  {
    if a < b then a else b
  }

  /**
   Distance along the ray to cross one whole tile on an axis whose
   direction component is `dir`: the reciprocal of |dir|, or the sentinel
   instead of a division by zero.
   */
  function RayLength(dir: real): (len: real)
    ensures len > 0.0
    ensures dir == 0.0 ==> len == Sentinel
    ensures dir != 0.0 ==> len * Fabs(dir) == 1.0
  {
    if dir == 0.0 then Sentinel else Fabs(1.0 / dir)
  }

  /** For a unit direction (|cos| and |sin| are at most 1) a tile-crossing length is at least one tile. */
  lemma UnitDirectionLength(dir: real)
    requires -1.0 <= dir <= 1.0
    ensures RayLength(dir) >= 1.0
  {
    if dir != 0.0 {
      var len := RayLength(dir);
      var a := Fabs(dir);
      assert len * a == 1.0 && 0.0 < a <= 1.0;
      NonNegativeProduct(len, 1.0 - a);
      assert len * (1.0 - a) == len - len * a;
    }
  }

  lemma NonNegativeProduct(x: real, y: real)
    requires x >= 0.0 && y >= 0.0
    ensures x * y >= 0.0
  {
  }

  /** The cell step on an axis: -1 exactly when the direction component is negative. */
  function StepOf(dir: real): (step: int)
    ensures step == -1 || step == 1
    ensures step == -1 <==> dir < 0.0
  {
    if dir < 0.0 then -1 else 1
  }

  /**
   Distance along the ray to the first grid line on one axis: from
   coordinate `pos` (tile units) in cell `cell`, to the cell's far edge in
   the step direction, scaled by that axis's tile-crossing length.
   */
  function StartDist(cell: int, step: int, pos: real, len: real): (d: real)
    requires step == -1 || step == 1
    requires len > 0.0
    ensures d >= 0.0
    ensures cell as real <= pos < cell as real + 1.0 ==> d <= len
    ensures cell as real <= pos < cell as real + 1.0 && step == 1 ==> d > 0.0
    ensures cell as real <= pos < cell as real + 1.0 ==>
      d == (if step == 1 then (cell + 1) as real - pos else pos - cell as real) * len
  {
    var gap := Fabs((cell + (if step < 0 then 0 else 1)) as real - pos);
    assert cell as real <= pos < cell as real + 1.0 ==> gap <= 1.0 && gap * len <= 1.0 * len;
    gap * len
  }

  /**
   The set-up before the loop (main.c:38-48), for a player at pixel
   position (x, y) and a ray with direction components (dirX, dirY).
   */
  function Begin(x: real, y: real, dirX: real, dirY: real): (l: Launch)
    ensures ValidRay(l.ray)
    ensures l.ray.stepX == StepOf(dirX) && l.ray.stepY == StepOf(dirY)
    ensures l.ray.rayLengthX == RayLength(dirX) && l.ray.rayLengthY == RayLength(dirY)
    ensures x >= 0.0 ==> l.start.mapX as real <= x / TileSize as real < l.start.mapX as real + 1.0
    ensures y >= 0.0 ==> l.start.mapY as real <= y / TileSize as real < l.start.mapY as real + 1.0
    ensures 0.0 <= l.start.startDistX && 0.0 <= l.start.startDistY
    ensures x >= 0.0 ==> l.start.startDistX <= l.ray.rayLengthX
    ensures y >= 0.0 ==> l.start.startDistY <= l.ray.rayLengthY
    ensures x >= 0.0 ==> (l.start.startDistX == (if l.ray.stepX == 1 then (l.start.mapX + 1) as real - x / TileSize as real else x / TileSize as real - l.start.mapX as real) * l.ray.rayLengthX)
    ensures y >= 0.0 ==> (l.start.startDistY == (if l.ray.stepY == 1 then (l.start.mapY + 1) as real - y / TileSize as real else y / TileSize as real - l.start.mapY as real) * l.ray.rayLengthY)
  {
    var px := x / TileSize as real;
    var py := y / TileSize as real;
    var mapX := Trunc(px);
    var mapY := Trunc(py);
    var ray := Ray(RayLength(dirX), RayLength(dirY), StepOf(dirX), StepOf(dirY));
    assert x >= 0.0 ==> px >= 0.0;
    assert y >= 0.0 ==> py >= 0.0;
    Launch(ray, Walker(mapX, mapY,
                       StartDist(mapX, ray.stepX, px, ray.rayLengthX),
                       StartDist(mapY, ray.stepY, py, ray.rayLengthY)))
  }

  /**
   One loop iteration (main.c:56-66): the nearer grid line is crossed.
   Exactly one coordinate moves, by its step; that axis's next crossing
   moves one tile-length further on; `side` names the axis that moved;
   and `distance` is the nearer of the two crossing distances.
   */
  function Advance(ray: Ray, w: Walker): (a: Advanced)
    requires ValidRay(ray)
    ensures a.side == XSide <==> w.startDistX < w.startDistY
    ensures a.distance == Min(w.startDistX, w.startDistY)
    ensures a.side == XSide <==> a.next.mapX != w.mapX
    ensures a.side == YSide <==> a.next.mapY != w.mapY
    ensures a.side == XSide ==> a.next.mapX == w.mapX + ray.stepX && a.distance == w.startDistX
    ensures a.side == YSide ==> a.next.mapY == w.mapY + ray.stepY && a.distance == w.startDistY
    ensures a.side == XSide ==> a.next.startDistX == w.startDistX + ray.rayLengthX && a.next.startDistY == w.startDistY
    ensures a.side == YSide ==> a.next.startDistY == w.startDistY + ray.rayLengthY && a.next.startDistX == w.startDistX
    ensures a.distance <= Min(a.next.startDistX, a.next.startDistY)
  {
    if w.startDistX < w.startDistY then
      Advanced(w.(mapX := w.mapX + ray.stepX, startDistX := w.startDistX + ray.rayLengthX), w.startDistX, XSide)
    else
      Advanced(w.(mapY := w.mapY + ray.stepY, startDistY := w.startDistY + ray.rayLengthY), w.startDistY, YSide)
  }

  /** `distance` never decreases from one iteration to the next. */
  lemma AdvanceMonotone(ray: Ray, w: Walker)
    requires ValidRay(ray)
    ensures Advance(ray, Advance(ray, w).next).distance >= Advance(ray, w).distance
  {
  }

  /**
   Cells left before the border ring, counted on each axis in its step
   direction; the walk's termination measure.
   */
  function Remaining(ray: Ray, w: Walker): (r: int) {
    (if ray.stepX > 0 then LastCol - w.mapX else w.mapX) +
    (if ray.stepY > 0 then LastRow - w.mapY else w.mapY)
  }

  /** How many cells the walk has gone from `from` to `to` in the step direction. */
  function Progress(from: int, to: int, step: int): (k: int) {
    if step > 0 then to - from else from - to
  }

  /**
   The whole walk as a recursive reference. Each step is taken from an
   interior cell, so the cell entered is in the grid and the lookup is in
   bounds; a step onto the border ring meets a wall and stops the walk,
   which is also why it terminates whatever the ray lengths are. The walk
   stops exactly on a wall, or short of one at the distance cap.
   */
  function Run(g: seq<seq<int>>, ray: Ray, w: Walker): (s: Stop)
    requires BorderWalled(g) && ValidRay(ray) && Interior(w.mapX, w.mapY)
    ensures InGrid(s.mapX, s.mapY)
    ensures s.hit == IsWall(g, s.mapX, s.mapY)
    ensures s.hit || s.distance >= MaxDistance
    decreases Remaining(ray, w)
  {
    var a := Advance(ray, w);
    var n := a.next;
    var hit := IsWall(g, n.mapX, n.mapY);
    if hit || a.distance >= MaxDistance then
      Stop(hit, a.side, a.distance, n.mapX, n.mapY)
    else
      OpenCellIsInterior(g, n.mapX, n.mapY);
      Run(g, ray, n)
  }

  /**
   The walk only moves forward in each step direction, and the distance it
   reports is never less than the first crossing: `distance` is monotone.
   */
  lemma {:induction false} RunMonotone(g: seq<seq<int>>, ray: Ray, w: Walker)
    requires BorderWalled(g) && ValidRay(ray) && Interior(w.mapX, w.mapY)
    ensures Run(g, ray, w).distance >= Min(w.startDistX, w.startDistY)
    ensures Progress(w.mapX, Run(g, ray, w).mapX, ray.stepX) >= 0
    ensures Progress(w.mapY, Run(g, ray, w).mapY, ray.stepY) >= 0
    decreases Remaining(ray, w)
  {
    var a := Advance(ray, w);
    var n := a.next;
    if !(IsWall(g, n.mapX, n.mapY) || a.distance >= MaxDistance) {
      OpenCellIsInterior(g, n.mapX, n.mapY);
      RunMonotone(g, ray, n);
    }
  }

  /** The walker after `n` loop iterations, ignoring walls and the cap. */
  function Walk(ray: Ray, w: Walker, n: nat): (v: Walker)
    requires ValidRay(ray)
    decreases n
  {
    if n == 0 then w else Walk(ray, Advance(ray, w).next, n - 1)
  }

  /**
   Iteration `i` (counting from 0) of the loop does not end it: the cell it
   enters is in the grid and open, and the distance it records is below the cap.
   */
  predicate Continues(g: seq<seq<int>>, ray: Ray, w: Walker, i: nat)
    requires Shaped(g) && ValidRay(ray)
  {
    var a := Advance(ray, Walk(ray, w, i));
    InGrid(a.next.mapX, a.next.mapY) && !IsWall(g, a.next.mapX, a.next.mapY) && a.distance < MaxDistance
  }

  /** Iteration `n` is the first one that ends the loop. */
  predicate FirstStopAt(g: seq<seq<int>>, ray: Ray, w: Walker, n: nat)
    requires Shaped(g) && ValidRay(ray)
  {
    (forall i :: 0 <= i < n ==> Continues(g, ray, w, i)) && !Continues(g, ray, w, n)
  }

  /**
   The walk stops at the first wall on the ray's path, or at the first
   crossing at or beyond the cap, whichever comes first: the stop state is
   that of the first iteration that ends the loop, and every iteration
   before it entered an open cell short of the cap.
   */
  lemma {:induction false} RunIsFirstStop(g: seq<seq<int>>, ray: Ray, w: Walker)
    requires BorderWalled(g) && ValidRay(ray) && Interior(w.mapX, w.mapY)
    ensures exists n: nat :: FirstStopAt(g, ray, w, n) && StoppedBy(Run(g, ray, w), Advance(ray, Walk(ray, w, n)))
    decreases Remaining(ray, w)
  {
    var a := Advance(ray, w);
    var next := a.next;
    if IsWall(g, next.mapX, next.mapY) || a.distance >= MaxDistance {
      assert Walk(ray, w, 0) == w;
      assert FirstStopAt(g, ray, w, 0) && StoppedBy(Run(g, ray, w), Advance(ray, Walk(ray, w, 0)));
    } else {
      OpenCellIsInterior(g, next.mapX, next.mapY);
      RunIsFirstStop(g, ray, next);
      var m: nat :| FirstStopAt(g, ray, next, m) && StoppedBy(Run(g, ray, next), Advance(ray, Walk(ray, next, m)));
      FirstStopShifts(g, ray, w, m);
      assert Walk(ray, w, m + 1) == Walk(ray, next, m);
    }
  }

  /** The stop state is the one iteration `a` reaches. */
  predicate StoppedBy(s: Stop, a: Advanced) {
    s.side == a.side && s.distance == a.distance && s.mapX == a.next.mapX && s.mapY == a.next.mapY
  }

  /** A first stop of the walk from the next state is, one iteration later, a first stop from this one. */
  lemma FirstStopShifts(g: seq<seq<int>>, ray: Ray, w: Walker, m: nat)
    requires Shaped(g) && ValidRay(ray) && Continues(g, ray, w, 0)
    requires FirstStopAt(g, ray, Advance(ray, w).next, m)
    ensures FirstStopAt(g, ray, w, m + 1)
  {
    var next := Advance(ray, w).next;
    forall i | 0 <= i < m + 1
      ensures Continues(g, ray, w, i)
    {
      if i > 0 {
        assert Walk(ray, w, i) == Walk(ray, next, i - 1);
        assert Continues(g, ray, next, i - 1);
      }
    }
    assert Walk(ray, w, m + 1) == Walk(ray, next, m);
  }

  /**
   The distance along the ray at which it crosses its `k`-th grid line on
   one axis, the first being met at `first` and each further one a
   tile-length `len` later.
   */
  function Crossing(first: real, len: real, k: int): (d: real) {
    first + (k - 1) as real * len
  }

  /** Starting one crossing later shifts the count by one. */
  lemma OneMoreCrossing(first: real, len: real, k: int)
    ensures Crossing(first + len, len, k) == Crossing(first, len, k + 1)
  {
  }

  /**
   The reported distance is where the ray entered the last cell: the
   crossing, on the axis of the last step, of as many grid lines as the walk
   advanced cells on that axis.
   */
  lemma {:induction false} RunDistance(g: seq<seq<int>>, ray: Ray, w: Walker)
    requires BorderWalled(g) && ValidRay(ray) && Interior(w.mapX, w.mapY)
    ensures var s := Run(g, ray, w);
      s.side == XSide ==>
        && Progress(w.mapX, s.mapX, ray.stepX) >= 1
        && s.distance == Crossing(w.startDistX, ray.rayLengthX, Progress(w.mapX, s.mapX, ray.stepX))
    ensures var s := Run(g, ray, w);
      s.side == YSide ==>
        && Progress(w.mapY, s.mapY, ray.stepY) >= 1
        && s.distance == Crossing(w.startDistY, ray.rayLengthY, Progress(w.mapY, s.mapY, ray.stepY))
    decreases Remaining(ray, w)
  {
    var a := Advance(ray, w);
    var n := a.next;
    if !(IsWall(g, n.mapX, n.mapY) || a.distance >= MaxDistance) {
      OpenCellIsInterior(g, n.mapX, n.mapY);
      RunDistance(g, ray, n);
      RunMonotone(g, ray, n);
      var s := Run(g, ray, n);
      assert Run(g, ray, w) == s;
      if s.side == XSide {
        var k := Progress(n.mapX, s.mapX, ray.stepX);
        if a.side == XSide {
          assert Progress(w.mapX, s.mapX, ray.stepX) == k + 1;
          OneMoreCrossing(w.startDistX, ray.rayLengthX, k);
        } else {
          assert Progress(w.mapX, s.mapX, ray.stepX) == k;
        }
      } else {
        var k := Progress(n.mapY, s.mapY, ray.stepY);
        if a.side == YSide {
          assert Progress(w.mapY, s.mapY, ray.stepY) == k + 1;
          OneMoreCrossing(w.startDistY, ray.rayLengthY, k);
        } else {
          assert Progress(w.mapY, s.mapY, ray.stepY) == k;
        }
      }
    }
  }

  /** A player standing in an interior cell starts the walk from that cell. */
  lemma BeginInInterior(x: real, y: real, dirX: real, dirY: real)
    requires TileSize as real <= x < (LastCol * TileSize) as real
    requires TileSize as real <= y < (LastRow * TileSize) as real
    ensures Interior(Begin(x, y, dirX, dirY).start.mapX, Begin(x, y, dirX, dirY).start.mapY)
  {
    var l := Begin(x, y, dirX, dirY);
    assert 1.0 <= x / 20.0 < 9.0;
    assert 1.0 <= y / 20.0 < 9.0;
  }

  /** The hit guard (main.c:71): a band is produced only when the walk ended on a wall. */
  function Band(s: Stop): (b: Option<Hit>)
    ensures b.Some? <==> s.hit
    ensures b.Some? ==> b.value.distance == s.distance && b.value.side == s.side
  {
    if s.hit then Some(Hit(s.distance, s.side)) else None
  }

  /**
   The DDA loop as the source writes it (main.c:52-68). `side` is
   uninitialised in C; here it starts as None, and the loop is shown to run
   at least once, so it is set when the loop exits.
   */
  method Traverse(g: seq<seq<int>>, ray: Ray, start: Walker) returns (stop: Stop)
    requires BorderWalled(g) && ValidRay(ray) && Interior(start.mapX, start.mapY)
    ensures stop == Run(g, ray, start)
    ensures InGrid(stop.mapX, stop.mapY)
    ensures stop.hit || stop.distance >= MaxDistance
  {
    var mapX, mapY := start.mapX, start.mapY;
    var startDistX, startDistY := start.startDistX, start.startDistY;
    var hit := false;
    var side: Option<Side> := None;
    var distance := 0.0;
    while !hit && distance < MaxDistance
      invariant side.None? ==> !hit && distance == 0.0 && Walker(mapX, mapY, startDistX, startDistY) == start
      invariant InGrid(mapX, mapY) && (!hit ==> Interior(mapX, mapY))
      invariant side.Some? ==> hit == IsWall(g, mapX, mapY)
      invariant !hit && distance < MaxDistance ==>
                  Run(g, ray, start) == Run(g, ray, Walker(mapX, mapY, startDistX, startDistY))
      invariant side.Some? && !(!hit && distance < MaxDistance) ==>
                  Run(g, ray, start) == Stop(hit, side.value, distance, mapX, mapY)
      decreases Remaining(ray, Walker(mapX, mapY, startDistX, startDistY))
    {
      ghost var before := Walker(mapX, mapY, startDistX, startDistY);
      if startDistX < startDistY {
        distance := startDistX;
        startDistX := startDistX + ray.rayLengthX;
        mapX := mapX + ray.stepX;
        side := Some(XSide);
      } else {
        distance := startDistY;
        startDistY := startDistY + ray.rayLengthY;
        mapY := mapY + ray.stepY;
        side := Some(YSide);
      }
      assert Advance(ray, before) == Advanced(Walker(mapX, mapY, startDistX, startDistY), distance, side.value);
      hit := IsWall(g, mapX, mapY);
      if !hit {
        OpenCellIsInterior(g, mapX, mapY);
      }
    }
    stop := Stop(hit, side.value, distance, mapX, mapY);
  }

  /**
   `CastRay` up to the drawing: set up from the player's pixel position,
   walk, and keep the result only if a wall was hit. The start cell must be
   an interior cell: columns and rows 1..8.
   */
  method CastRay(g: seq<seq<int>>, x: real, y: real, dirX: real, dirY: real) returns (band: Option<Hit>)
    requires BorderWalled(g)
    requires TileSize as real <= x < (LastCol * TileSize) as real
    requires TileSize as real <= y < (LastRow * TileSize) as real
    ensures var l := Begin(x, y, dirX, dirY);
            band == Band(Run(g, l.ray, l.start))
    ensures band.Some? ==> band.value.distance >= 0.0
  {
    var l := Begin(x, y, dirX, dirY);
    BeginInInterior(x, y, dirX, dirY);
    var stop := Traverse(g, l.ray, l.start);
    RunMonotone(g, l.ray, l.start);
    band := Band(stop);
  }

}
