/** Concrete walks over the level. */
module DdaScenarios {
  import opened Wrappers
  import opened Grid
  import opened Dda

  /**
   A player at the centre of tile (1, 1) (pixel (30, 30)) looking due east
   (direction (1, 0)): the ray crosses row 1, which is open up to the
   border, and enters the wall at column 9 across an X grid line, 7.5
   tiles away. The Y axis gets the sentinel length, since its component is 0.
   */
  lemma EastwardRayFromStart()
    ensures var l := Begin(30.0, 30.0, 1.0, 0.0);
      && l == Launch(Ray(1.0, Sentinel, 1, 1), Walker(1, 1, 0.5, 5000.0))
      && Run(Map, l.ray, l.start) == Stop(true, XSide, 7.5, 9, 1)
      && Band(Run(Map, l.ray, l.start)) == Some(Hit(7.5, XSide))
  {
    MapIsBorderWalled();
    var ray := Ray(1.0, Sentinel, 1, 1);
    assert Begin(30.0, 30.0, 1.0, 0.0) == Launch(ray, Walker(1, 1, 0.5, 5000.0));
    assert Run(Map, ray, Walker(8, 1, 7.5, 5000.0)) == Stop(true, XSide, 7.5, 9, 1);
    assert Run(Map, ray, Walker(7, 1, 6.5, 5000.0)) == Run(Map, ray, Walker(8, 1, 7.5, 5000.0));
    assert Run(Map, ray, Walker(6, 1, 5.5, 5000.0)) == Run(Map, ray, Walker(7, 1, 6.5, 5000.0));
    assert Run(Map, ray, Walker(5, 1, 4.5, 5000.0)) == Run(Map, ray, Walker(6, 1, 5.5, 5000.0));
    assert Run(Map, ray, Walker(4, 1, 3.5, 5000.0)) == Run(Map, ray, Walker(5, 1, 4.5, 5000.0));
    assert Run(Map, ray, Walker(3, 1, 2.5, 5000.0)) == Run(Map, ray, Walker(4, 1, 3.5, 5000.0));
    assert Run(Map, ray, Walker(2, 1, 1.5, 5000.0)) == Run(Map, ray, Walker(3, 1, 2.5, 5000.0));
    assert Run(Map, ray, Walker(1, 1, 0.5, 5000.0)) == Run(Map, ray, Walker(2, 1, 1.5, 5000.0));
  }

  /**
   The search cap: with both tile-crossing lengths 20 (direction
   components of 1/20) from tile (1, 1), the first crossing is 10 tiles
   away; the walk enters the open cell (1, 2) at the cap and stops without
   a hit, so no band is drawn.
   */
  lemma CappedRayDrawsNothing()
    ensures var l := Begin(30.0, 30.0, 0.05, 0.05);
      && l == Launch(Ray(20.0, 20.0, 1, 1), Walker(1, 1, 10.0, 10.0))
      && Run(Map, l.ray, l.start) == Stop(false, YSide, 10.0, 1, 2)
      && Band(Run(Map, l.ray, l.start)) == None
  {
    MapIsBorderWalled();
    assert Begin(30.0, 30.0, 0.05, 0.05) == Launch(Ray(20.0, 20.0, 1, 1), Walker(1, 1, 10.0, 10.0));
  }

}
