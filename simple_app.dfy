/** simple.py: the one-file variant. Positional arguments give the interval and the idle
    threshold; every movement is a fixed 20-point circle of radius 25; nothing is saved, and an
    error from the cursor library is not caught, so it ends the program. */
module SimpleApp {
  import opened Basics
  import opened Tick
  import opened Circle

  /** The circle of every movement: radius 25 pixels, 20 points. */
  const JIGGLE_RADIUS: int := 25
  const JIGGLE_STEPS: int := 20

  /** The three positional arguments after the defaults are applied. */
  datatype Arguments = Arguments(minutes: int, seconds: int, idleThreshold: int)

  /** The positional arguments, already converted to integers: minutes, seconds and idle
      threshold, in that order; extra arguments are ignored. A missing one takes its default,
      1 minute, 0 seconds and 30 seconds respectively. */
  function ParseArguments(argv: seq<int>): (a: Arguments)
    ensures |argv| == 0 ==> a == Arguments(1, 0, 30)
    ensures |argv| >= 3 ==> a == Arguments(argv[0], argv[1], argv[2])
    ensures a.minutes == (if 1 <= |argv| then argv[0] else 1)
    ensures a.seconds == (if 2 <= |argv| then argv[1] else 0)
    ensures a.idleThreshold == (if 3 <= |argv| then argv[2] else 30)
  {
    Arguments(
      if |argv| > 0 then argv[0] else 1,
      if |argv| > 1 then argv[1] else 0,
      if |argv| > 2 then argv[2] else 30)
  }

  /** The interval in seconds. Unlike move.py, either part may be negative, as long as the total is not. */
  function Interval(a: Arguments): int {
    a.minutes * 60 + a.seconds
  }

  /** The decision configuration of the loop. */
  function LoopConfig(a: Arguments): TickConfig {
    TickConfig(Interval(a), a.idleThreshold)
  }

  /** One movement: 20 moves around `start`, then one back to `start`. The cursor library
      raises at call `failAt`, if any; the movement then stops there and `raised` is set. */
  method Jiggle(start: Point, offset: OffsetFn, failAt: Option<nat>) returns (path: seq<Point>, raised: bool)
    ensures var planned := PlannedPath(start, JIGGLE_RADIUS, JIGGLE_STEPS, offset, JIGGLE_STEPS);
      && path == Emitted(planned, failAt)
      && raised == Fails(planned, failAt)
    ensures !raised ==> |path| == 21 && path[20] == start
    ensures !raised ==> forall i :: 0 <= i < 20 ==> path[i] == Shift(start, offset(JIGGLE_RADIUS, JIGGLE_STEPS, i))
    ensures raised ==> |path| == failAt.value <= 20
  {
    path := [];
    for i := 0 to JIGGLE_STEPS
      invariant path == CircleTargets(start, JIGGLE_RADIUS, JIGGLE_STEPS, offset, i)
      invariant !(failAt.Some? && failAt.value < i)
    {
      if failAt == Some(i) {
        return path, true;
      }
      path := path + [Shift(start, offset(JIGGLE_RADIUS, JIGGLE_STEPS, i))];
    }
    if failAt == Some(JIGGLE_STEPS) {
      return path, true;
    }
    path := path + [start];
    raised := false;
  }

  /** How the program ends. */
  datatype Outcome =
    | UsageError   // the interval is not positive: usage message, exit status 1
    | Interrupted  // the user pressed Ctrl+C
    | Crashed      // the cursor library raised during a movement

  /** simple.py's main: refuse a non-positive interval, then poll. Observation `obs[i]` answers
      the queries of pass `i`; running out of observations stands for Ctrl+C. */
  method SimpleMain(argv: seq<int>, obs: seq<Observation>, offset: OffsetFn)
    returns (outcome: Outcome, actions: seq<Action>, paths: seq<seq<Point>>)
    ensures outcome == UsageError <==> Interval(ParseArguments(argv)) <= 0
    ensures |actions| == |paths| <= |obs|
    ensures actions == Decisions(LoopConfig(ParseArguments(argv)), obs[..|actions|])
    ensures outcome == UsageError ==> actions == []
    ensures outcome == Interrupted ==> |actions| == |obs|
    ensures outcome == Crashed ==> 0 < |actions|
    ensures PathsFollow(JIGGLE_RADIUS, JIGGLE_STEPS, offset, obs, actions, paths)
    ensures forall j :: 0 <= j < |actions| ==>
      (PassFailed(JIGGLE_STEPS, obs[j], actions[j]) <==> outcome == Crashed && j == |actions| - 1)
    ensures MovesSpacedBy(obs[..|actions|], actions, Interval(ParseArguments(argv)))
  {
    var args := ParseArguments(argv);
    if Interval(args) <= 0 {
      return UsageError, [], [];
    }
    var cfg := LoopConfig(args);
    var lastMoveTime := INITIAL_LAST_MOVE;
    var crashed := false;
    actions, paths := [], [];
    var i := 0;
    while !crashed && i < |obs|
      invariant i == |actions| == |paths| <= |obs|
      invariant actions == Decisions(cfg, obs[..i])
      invariant lastMoveTime == LastMove(cfg, obs[..i])
      invariant PathsFollow(JIGGLE_RADIUS, JIGGLE_STEPS, offset, obs, actions, paths)
      invariant forall j :: 0 <= j < i ==>
        (PassFailed(JIGGLE_STEPS, obs[j], actions[j]) <==> crashed && j == i - 1)
      invariant crashed ==> 0 < i
    {
      var o := obs[i];
      var tick := Step(cfg, lastMoveTime, o);
      var path := [];
      if tick.action == MoveCursor {
        path, crashed := Jiggle(o.cursor, offset, o.failAt);
        PassFailedMeansCut(JIGGLE_RADIUS, JIGGLE_STEPS, offset, o);
      }
      DecisionsSnoc(cfg, obs, i);
      lastMoveTime := tick.lastMove;
      actions, paths := actions + [tick.action], paths + [path];
      i := i + 1;
    }
    outcome := if crashed then Crashed else Interrupted;
    RunSpaced(cfg, obs[..i]);
  }
}
