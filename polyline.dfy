/** The `Polyline` class of the screensaver: a list of control points with their speeds,
    that grows by `add_point` and moves by `set_points`. */
module Shapes {
  import PyErrors
  import opened Vectors
  import opened Pairs
  import Motion

  /** An entry of a polyline: a `Vec2d` position and its speed tuple. */
  datatype PolylinePoint = PolylinePoint(point: Vec2d, speed: Pair)

  /** The speed a new point gets when `add_point` is called without one. */
  const DefaultSpeed: Pair := Pair(0.5, 0.5)

  /** One frame of motion of one entry, by the rule of the module-level `set_points`. */
  function Advance(e: PolylinePoint): (r: PolylinePoint)
    ensures Vectors.Add(e.point, Vector(Vec2d(e.speed.x, e.speed.y))) == PyErrors.Ok(r.point)
    ensures Motion.Step(Motion.Mover(Pair(e.point.x, e.point.y), e.speed))
         == Motion.Mover(Pair(r.point.x, r.point.y), r.speed)
  {
    var m := Motion.Step(Motion.Mover(Pair(e.point.x, e.point.y), e.speed));
    PolylinePoint(Vec2d(m.pos.x, m.pos.y), m.speed)
  }

  class Polyline {
    var points: seq<PolylinePoint>

    /** `Polyline(points)`: starts from the given entries, or from none. */
    constructor (initial: seq<PolylinePoint> := [])
      ensures points == initial
    {
      points := initial;
    }

    /** `add_point(point, speed)`: appends the entry, leaving the earlier ones as they were. */
    method AddPoint(point: Vec2d, speed: Pair := DefaultSpeed)
      modifies this
      ensures points == old(points) + [PolylinePoint(point, speed)]
    {
      points := points + [PolylinePoint(point, speed)];
    }

    /** `set_points()`: advances every entry by one frame, keeping the order and the count. */
    method SetPoints()
      modifies this
      ensures |points| == |old(points)|
      ensures forall i :: 0 <= i < |points| ==> points[i] == Advance(old(points)[i])
    {
      var i := 0;
      while i < |points|
        invariant 0 <= i <= |points| == |old(points)|
        invariant forall k :: 0 <= k < i ==> points[k] == Advance(old(points)[k])
        invariant forall k :: i <= k < |points| ==> points[k] == old(points)[k]
      {
        points := points[i := Advance(points[i])];
        i := i + 1;
      }
    }
  }

  /** The scenarios of the polyline tests: an empty polyline, an added point, and one frame
      of motion of five points well inside the screen. */
  method PolylineScenarios()
  {
    var empty := new Polyline();
    assert empty.points == [];

    var speed := Pair(0.7, 0.8);
    empty.AddPoint(Vec2d(2.0, 5.0), speed);
    assert PolylinePoint(Vec2d(2.0, 5.0), speed) in empty.points;

    var line := new Polyline([
      PolylinePoint(Vec2d(1.0, 3.0), DefaultSpeed),
      PolylinePoint(Vec2d(2.0, 4.0), DefaultSpeed),
      PolylinePoint(Vec2d(3.0, 5.0), DefaultSpeed),
      PolylinePoint(Vec2d(4.0, 6.0), DefaultSpeed),
      PolylinePoint(Vec2d(5.0, 7.0), DefaultSpeed)]);
    assert line.points == [
      PolylinePoint(Vec2d(1.0, 3.0), DefaultSpeed),
      PolylinePoint(Vec2d(2.0, 4.0), DefaultSpeed),
      PolylinePoint(Vec2d(3.0, 5.0), DefaultSpeed),
      PolylinePoint(Vec2d(4.0, 6.0), DefaultSpeed),
      PolylinePoint(Vec2d(5.0, 7.0), DefaultSpeed)];
    line.SetPoints();
    assert line.points == [
      PolylinePoint(Vec2d(1.5, 3.5), DefaultSpeed),
      PolylinePoint(Vec2d(2.5, 4.5), DefaultSpeed),
      PolylinePoint(Vec2d(3.5, 5.5), DefaultSpeed),
      PolylinePoint(Vec2d(4.5, 6.5), DefaultSpeed),
      PolylinePoint(Vec2d(5.5, 7.5), DefaultSpeed)];
  }
}
