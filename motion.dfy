/** The per-frame motion of the control points (`set_points`): every point moves by its
    speed, and a speed component changes sign when the moved point is off the 800 x 600
    screen on that axis. */
module Motion {
  import opened Pairs

  /** `SCREEN_DIM`: the width and height of the screen. */
  const Width: real := 800.0
  const Height: real := 600.0

  predicate OnScreenX(x: real) { 0.0 <= x <= Width }
  predicate OnScreenY(y: real) { 0.0 <= y <= Height }

  /** The speed after the move that put the point at `p`: each component is negated when the
      point is off the screen on that axis, independently of the other. */
  function Reflect(speed: Pair, p: Pair): (r: Pair)
    ensures r.x * r.x == speed.x * speed.x && r.y * r.y == speed.y * speed.y
    ensures r.x == (if OnScreenX(p.x) then speed.x else -speed.x)
    ensures r.y == (if OnScreenY(p.y) then speed.y else -speed.y)
  {
    var sx := if p.x > Width || p.x < 0.0 then -speed.x else speed.x;
    var sy := if p.y > Height || p.y < 0.0 then -speed.y else speed.y;
    Pair(sx, sy)
  }

  /** A control point together with its speed. */
  datatype Mover = Mover(pos: Pair, speed: Pair)

  /** One frame of `set_points` for one control point. */
  function Step(m: Mover): (r: Mover)
    ensures Vec(m.pos, r.pos) == m.speed
    ensures r.speed == Reflect(m.speed, r.pos)
  {
    var p := Add(m.pos, m.speed);
    Mover(p, Reflect(m.speed, p))
  }

  /** `k` frames of motion. */
  function Run(m: Mover, k: nat): Mover
    decreases k
  {
    if k == 0 then m else Run(Step(m), k - 1)
  }

  /** Reflection changes the direction of a speed, never its magnitude. */
  lemma ReflectKeepsMagnitude(m: Mover)
    ensures Step(m).speed.x == m.speed.x || Step(m).speed.x == -m.speed.x
    ensures Step(m).speed.y == m.speed.y || Step(m).speed.y == -m.speed.y
    ensures OnScreenX(Step(m).pos.x) ==> Step(m).speed.x == m.speed.x
    ensures OnScreenY(Step(m).pos.y) ==> Step(m).speed.y == m.speed.y
  {
  }

  /** A point that leaves the screen on an axis comes back on the next frame: its speed on
      that axis now points back towards the screen. */
  lemma ReflectTurnsBack(m: Mover)
    requires OnScreenX(m.pos.x) && OnScreenY(m.pos.y)
    ensures Step(m).pos.x > Width ==> Step(m).speed.x < 0.0
    ensures Step(m).pos.x < 0.0 ==> Step(m).speed.x > 0.0
    ensures Step(m).pos.y > Height ==> Step(m).speed.y < 0.0
    ensures Step(m).pos.y < 0.0 ==> Step(m).speed.y > 0.0
  {
  }

  /** On each axis the point is on the screen, or the next move takes it back there. */
  predicate Returning(m: Mover)
  {
    && (OnScreenX(m.pos.x) || OnScreenX(m.pos.x + m.speed.x))
    && (OnScreenY(m.pos.y) || OnScreenY(m.pos.y + m.speed.y))
  }

  lemma StepKeepsReturning(m: Mover)
    requires Returning(m)
    ensures Returning(Step(m))
  {
  }

  /** A point placed on the screen is, at every later frame, on the screen or one step from
      it on each axis: the reflection never lets it escape. */
  lemma {:induction false} RunKeepsReturning(m: Mover, k: nat)
    requires Returning(m)
    ensures Returning(Run(m, k))
    decreases k
  {
    if k > 0 {
      StepKeepsReturning(m);
      RunKeepsReturning(Step(m), k - 1);
    }
  }

  /** `set_points(points, speeds)`: moves every point by its speed and reflects the speed
      on each axis where the moved point is off the screen; nothing else changes. */
  method SetPoints(points: array<Pair>, speeds: array<Pair>)
    requires points.Length <= speeds.Length && points != speeds
    modifies points, speeds
    ensures forall i :: 0 <= i < points.Length ==>
      Mover(points[i], speeds[i]) == Step(Mover(old(points[i]), old(speeds[i])))
    ensures forall i :: 0 <= i < points.Length ==>
      && points[i] == Add(old(points[i]), old(speeds[i]))
      && speeds[i].x == (if points[i].x > Width || points[i].x < 0.0 then -old(speeds[i].x) else old(speeds[i].x))
      && speeds[i].y == (if points[i].y > Height || points[i].y < 0.0 then -old(speeds[i].y) else old(speeds[i].y))
    ensures forall i :: points.Length <= i < speeds.Length ==> speeds[i] == old(speeds[i])
  {
    for p := 0 to points.Length
      invariant forall i :: 0 <= i < p ==>
        Mover(points[i], speeds[i]) == Step(Mover(old(points[i]), old(speeds[i])))
      invariant forall i :: p <= i < points.Length ==> points[i] == old(points[i])
      invariant forall i :: p <= i < speeds.Length ==> speeds[i] == old(speeds[i])
    {
      points[p] := Add(points[p], speeds[p]);
      if points[p].x > Width || points[p].x < 0.0 {
        speeds[p] := Pair(-speeds[p].x, speeds[p].y);
      }
      if points[p].y > Height || points[p].y < 0.0 {
        speeds[p] := Pair(speeds[p].x, -speeds[p].y);
      }
    }
  }
}
