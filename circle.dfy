/** The shape of one cursor movement: a number of points on a small circle around the start,
    then a move back to the start itself. */
module Circle {
  import opened Basics
  import opened Tick

  /** The displacement of circle point `i` of `steps` on a circle of radius `radius`, applied
      as `OffsetFn(radius, steps, i)`. Both programs compute it as the radius times the cosine and
      the sine of 2*pi*i/steps, truncated to integers, in floating point; that computation is not
      modelled, so the displacement is a parameter of every movement. */
  type OffsetFn = (int, int, int) -> Point

  /** The targets of the first `count` circle moves around `start`. */
  function CircleTargets(start: Point, radius: int, steps: int, offset: OffsetFn, count: nat): seq<Point>
  {
    seq(count, i => Shift(start, offset(radius, steps, i)))
  }

  /** Every cursor target of one movement in order, when nothing fails: `count` circle targets,
      then the start itself. */
  function PlannedPath(start: Point, radius: int, steps: int, offset: OffsetFn, count: nat): seq<Point>
  {
    CircleTargets(start, radius, steps, offset, count) + [start]
  }

  /** The cursor library raises at call `failAt` before the planned moves are all made. */
  predicate Fails(planned: seq<Point>, failAt: Option<nat>) {
    failAt.Some? && failAt.value < |planned|
  }

  /** The targets the cursor is actually sent to: all of `planned`, or those before the call that raised. */
  function Emitted(planned: seq<Point>, failAt: Option<nat>): seq<Point> {
    if Fails(planned, failAt) then planned[..failAt.value] else planned
  }

  /** A movement that does not fail visits the `count` circle targets in order and ends exactly
      where it started; one that fails stops before the move back, after exactly `failAt` moves. */
  lemma PathShape(start: Point, radius: int, steps: int, offset: OffsetFn, count: nat, failAt: Option<nat>)
    ensures var path := Emitted(PlannedPath(start, radius, steps, offset, count), failAt);
      && (!Fails(PlannedPath(start, radius, steps, offset, count), failAt) ==>
            && |path| == count + 1
            && path[count] == start
            && (forall i :: 0 <= i < count ==> path[i] == Shift(start, offset(radius, steps, i))))
      && (Fails(PlannedPath(start, radius, steps, offset, count), failAt) ==>
            && |path| == failAt.value <= count
            && path == CircleTargets(start, radius, steps, offset, failAt.value))
  {
  }

  /** The targets of one movement of the polling loop: `steps` circle targets (none when `steps`
      is not positive) around the cursor position of observation `o`, then back. */
  function MovePlan(radius: int, steps: int, offset: OffsetFn, o: Observation): seq<Point> {
    PlannedPath(o.cursor, radius, steps, offset, RangeCount(steps))
  }

  /** Pass `o` decided to move and the cursor library raised during that movement: at one of
      its `steps` circle moves or at the move back. */
  predicate PassFailed(steps: int, o: Observation, a: Action) {
    a == MoveCursor && o.failAt.Some? && o.failAt.value <= RangeCount(steps)
  }

  /** A pass fails exactly when its movement's planned path is cut short. */
  lemma PassFailedMeansCut(radius: int, steps: int, offset: OffsetFn, o: Observation)
    ensures PassFailed(steps, o, MoveCursor) <==> Fails(MovePlan(radius, steps, offset, o), o.failAt)
  {
    assert |MovePlan(radius, steps, offset, o)| == RangeCount(steps) + 1;
  }

  /** The targets the cursor is sent to during a pass that took action `a`: none unless it moved. */
  function PassPath(radius: int, steps: int, offset: OffsetFn, o: Observation, a: Action): seq<Point> {
    if a == MoveCursor then Emitted(MovePlan(radius, steps, offset, o), o.failAt) else []
  }

  /** Pass `j` sent the cursor along `paths[j]`, the path its action and observation call for. */
  predicate PathsFollow(radius: int, steps: int, offset: OffsetFn, obs: seq<Observation>, acts: seq<Action>, paths: seq<seq<Point>>)
    requires |acts| == |paths| <= |obs|
  {
    forall j :: 0 <= j < |acts| ==> paths[j] == PassPath(radius, steps, offset, obs[j], acts[j])
  }
}
