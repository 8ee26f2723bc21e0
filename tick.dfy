/** The decision the polling loop takes on every pass. move.py's Move.run and simple.py's main
    take it the same way, so it is defined once here and both loops use it. */
module Tick {
  import opened Basics

  /** What one pass of the polling loop does. */
  datatype Action =
    | SkipLocked  // the screen is locked: sleep, then check again
    | SkipActive  // the user is active (idle time below the threshold): sleep, then check again
    | MoveCursor  // idle long enough and the interval has passed: move the cursor
    | Wait        // idle long enough, but the interval has not passed yet: sleep, then check again

  /** What the outside world answers during one pass: the clock, the two probes (None when the
      probe failed), where the cursor is when a movement starts, and the index of the cursor
      move at which the cursor library raises (its fail-safe or any other error), if it does. */
  datatype Observation = Observation(
    now: real,
    lockProbe: Option<bool>,
    idleProbe: Option<real>,
    cursor: Point,
    failAt: Option<nat>)

  /** The two numbers the decision depends on, both fixed before the loop starts. */
  datatype TickConfig = TickConfig(interval: int, idleThreshold: int)

  /** The action of one pass and the time of the last movement after it. */
  datatype TickResult = TickResult(action: Action, lastMove: real)

  /** Both loops start with a last movement at time 0. */
  const INITIAL_LAST_MOVE: real := 0.0

  /** is_screen_locked as the loop sees it: a failed probe reads as "not locked". */
  function ScreenLocked(probe: Option<bool>): bool {
    probe.GetOr(false)
  }

  /** get_idle_time as the loop sees it: a failed probe reads as 0 seconds idle. */
  function IdleTime(probe: Option<real>): real {
    probe.GetOr(0.0)
  }

  /** Both guards pass: the screen is not locked and the machine has been idle long enough. */
  predicate Eligible(cfg: TickConfig, o: Observation) {
    !ScreenLocked(o.lockProbe) && IdleTime(o.idleProbe) >= cfg.idleThreshold as real
  }

  /** One pass: the lock check, then the idle check, then the interval check. */
  function Step(cfg: TickConfig, lastMove: real, o: Observation): (r: TickResult)
    ensures r.action == MoveCursor <==> Eligible(cfg, o) && o.now - lastMove >= cfg.interval as real
    ensures r.action == Wait <==> Eligible(cfg, o) && o.now - lastMove < cfg.interval as real
    ensures r.lastMove == if r.action == MoveCursor then o.now else lastMove
    ensures ScreenLocked(o.lockProbe) ==> r.action == SkipLocked
    ensures !ScreenLocked(o.lockProbe) && IdleTime(o.idleProbe) < cfg.idleThreshold as real ==> r.action == SkipActive
  {
    if ScreenLocked(o.lockProbe) then TickResult(SkipLocked, lastMove)
    else if IdleTime(o.idleProbe) < cfg.idleThreshold as real then TickResult(SkipActive, lastMove)
    else if o.now - lastMove >= cfg.interval as real then TickResult(MoveCursor, o.now)
    else TickResult(Wait, lastMove)
  }

  /** The time of the last movement after the passes that saw `obs`. */
  function LastMove(cfg: TickConfig, obs: seq<Observation>): real
    decreases |obs|
  {
    if obs == [] then INITIAL_LAST_MOVE
    else Step(cfg, LastMove(cfg, obs[..|obs| - 1]), obs[|obs| - 1]).lastMove
  }

  /** The actions of the passes that saw `obs`, one per observation. */
  function Decisions(cfg: TickConfig, obs: seq<Observation>): (acts: seq<Action>)
    ensures |acts| == |obs|
    decreases |obs|
  {
    if obs == [] then []
    else
      var before := obs[..|obs| - 1];
      Decisions(cfg, before) + [Step(cfg, LastMove(cfg, before), obs[|obs| - 1]).action]
  }

  /** Pass `j` takes the decision of Step on its own observation and the last movement before it. */
  lemma {:induction false} DecisionAt(cfg: TickConfig, obs: seq<Observation>, j: nat)
    requires j < |obs|
    ensures Decisions(cfg, obs)[j] == Step(cfg, LastMove(cfg, obs[..j]), obs[j]).action
    decreases |obs|
  {
    var n := |obs| - 1;
    if j < n {
      DecisionAt(cfg, obs[..n], j);
      assert obs[..n][..j] == obs[..j];
    } else {
      assert obs[..j] == obs[..n];
    }
  }

  /** The last movement after pass `j` is what Step made of the last movement before it. */
  lemma LastMoveAt(cfg: TickConfig, obs: seq<Observation>, j: nat)
    requires j < |obs|
    ensures LastMove(cfg, obs[..j + 1]) == Step(cfg, LastMove(cfg, obs[..j]), obs[j]).lastMove
  {
    assert obs[..j + 1][..j] == obs[..j];
  }

  /** One more pass appends Step's action and advances the last-move time as Step says. */
  lemma DecisionsSnoc(cfg: TickConfig, obs: seq<Observation>, i: nat)
    requires i < |obs|
    ensures Decisions(cfg, obs[..i + 1]) == Decisions(cfg, obs[..i]) + [Step(cfg, LastMove(cfg, obs[..i]), obs[i]).action]
    ensures LastMove(cfg, obs[..i + 1]) == Step(cfg, LastMove(cfg, obs[..i]), obs[i]).lastMove
  {
    assert obs[..i + 1][..i] == obs[..i];
  }

  /** Running the loop for fewer passes gives a prefix of the actions. */
  lemma {:induction false} DecisionsPrefix(cfg: TickConfig, obs: seq<Observation>, k: nat)
    requires k <= |obs|
    ensures Decisions(cfg, obs[..k]) == Decisions(cfg, obs)[..k]
  {
    var acts := Decisions(cfg, obs[..k]);
    forall j | 0 <= j < k
      ensures acts[j] == Decisions(cfg, obs)[j]
    {
      DecisionAt(cfg, obs[..k], j);
      DecisionAt(cfg, obs, j);
      assert obs[..k][..j] == obs[..j];
    }
  }

  /** With a non-negative interval the time of the last movement never goes back: a movement
      happens only at a time at least `interval` after the previous one. */
  lemma {:induction false} LastMoveMonotone(cfg: TickConfig, obs: seq<Observation>, k: nat)
    requires cfg.interval >= 0
    requires k <= |obs|
    ensures LastMove(cfg, obs[..k]) <= LastMove(cfg, obs)
    decreases |obs|
  {
    if k == |obs| {
      assert obs[..k] == obs;
    } else {
      var n := |obs| - 1;
      LastMoveMonotone(cfg, obs[..n], k);
      assert obs[..n][..k] == obs[..k];
    }
  }

  /** Any two movements are at least `interval` apart, whatever the clock does in between. */
  lemma MovesSpaced(cfg: TickConfig, obs: seq<Observation>, i: nat, j: nat)
    requires cfg.interval >= 0
    requires i < j < |obs|
    requires Decisions(cfg, obs)[i] == MoveCursor && Decisions(cfg, obs)[j] == MoveCursor
    ensures obs[j].now - obs[i].now >= cfg.interval as real
  {
    DecisionAt(cfg, obs, i);
    DecisionAt(cfg, obs, j);
    LastMoveAt(cfg, obs, i);
    LastMoveMonotone(cfg, obs[..j], i + 1);
    assert obs[..j][..i + 1] == obs[..i + 1];
  }

  /** Any two passes of `acts` that move saw clock readings at least `interval` apart. */
  predicate MovesSpacedBy(obs: seq<Observation>, acts: seq<Action>, interval: int)
    requires |acts| <= |obs|
  {
    forall i, j :: 0 <= i < j < |acts| && acts[i] == MoveCursor && acts[j] == MoveCursor ==>
      obs[j].now - obs[i].now >= interval as real
  }

  /** Every run with a non-negative interval spaces its movements by at least that interval. */
  lemma RunSpaced(cfg: TickConfig, obs: seq<Observation>)
    requires cfg.interval >= 0
    ensures MovesSpacedBy(obs, Decisions(cfg, obs), cfg.interval)
  {
    forall i, j | 0 <= i < j < |obs| && Decisions(cfg, obs)[i] == MoveCursor && Decisions(cfg, obs)[j] == MoveCursor
      ensures obs[j].now - obs[i].now >= cfg.interval as real
    {
      MovesSpaced(cfg, obs, i, j);
    }
  }

  /** A pass that finds the screen locked does not move and keeps the time of the last movement,
      whatever the idle time and the clock say. */
  lemma LockedPassNeverMoves(cfg: TickConfig, obs: seq<Observation>, j: nat)
    requires j < |obs|
    requires ScreenLocked(obs[j].lockProbe)
    ensures Decisions(cfg, obs)[j] == SkipLocked
    ensures LastMove(cfg, obs[..j + 1]) == LastMove(cfg, obs[..j])
  {
    DecisionAt(cfg, obs, j);
    LastMoveAt(cfg, obs, j);
  }

  /** A pass that finds the screen unlocked and the idle time below the threshold does not move
      and keeps the time of the last movement. */
  lemma ActivePassNeverMoves(cfg: TickConfig, obs: seq<Observation>, j: nat)
    requires j < |obs|
    requires !ScreenLocked(obs[j].lockProbe) && IdleTime(obs[j].idleProbe) < cfg.idleThreshold as real
    ensures Decisions(cfg, obs)[j] == SkipActive
    ensures LastMove(cfg, obs[..j + 1]) == LastMove(cfg, obs[..j])
  {
    DecisionAt(cfg, obs, j);
    LastMoveAt(cfg, obs, j);
  }

  /** A pass moves exactly when both guards pass and `interval` has passed since the last
      movement; the last movement then becomes the pass's own time, and otherwise stays. */
  lemma MoveExactlyWhenDue(cfg: TickConfig, obs: seq<Observation>, j: nat)
    requires j < |obs|
    ensures Decisions(cfg, obs)[j] == MoveCursor
        <==> Eligible(cfg, obs[j]) && obs[j].now - LastMove(cfg, obs[..j]) >= cfg.interval as real
    ensures LastMove(cfg, obs[..j + 1])
         == if Decisions(cfg, obs)[j] == MoveCursor then obs[j].now else LastMove(cfg, obs[..j])
  {
    DecisionAt(cfg, obs, j);
    LastMoveAt(cfg, obs, j);
  }

  /** Until the first movement, the time of the last movement is the initial 0. */
  lemma {:induction false} NoMoveKeepsInitial(cfg: TickConfig, obs: seq<Observation>)
    requires forall i :: 0 <= i < |obs| ==> Decisions(cfg, obs)[i] != MoveCursor
    ensures LastMove(cfg, obs) == INITIAL_LAST_MOVE
    decreases |obs|
  {
    if obs != [] {
      var n := |obs| - 1;
      DecisionsPrefix(cfg, obs, n);
      NoMoveKeepsInitial(cfg, obs[..n]);
      DecisionAt(cfg, obs, n);
    }
  }

  /** Since the loop starts with a last movement at 0, the first pass that gets past both guards
      at a clock reading of at least `interval` moves the cursor. */
  lemma FirstEligiblePassMoves(cfg: TickConfig, obs: seq<Observation>, j: nat)
    requires j < |obs|
    requires forall i :: 0 <= i < j ==> Decisions(cfg, obs)[i] != MoveCursor
    requires Eligible(cfg, obs[j]) && obs[j].now >= cfg.interval as real
    ensures Decisions(cfg, obs)[j] == MoveCursor
  {
    DecisionsPrefix(cfg, obs, j);
    NoMoveKeepsInitial(cfg, obs[..j]);
    DecisionAt(cfg, obs, j);
  }

  /** When both probes fail on every pass (not locked, 0 seconds idle) and the idle threshold is
      positive, every pass is skipped as "active" and the cursor is never moved. */
  lemma ProbeFailureNeverMoves(cfg: TickConfig, obs: seq<Observation>)
    requires cfg.idleThreshold > 0
    requires forall i :: 0 <= i < |obs| ==> obs[i].lockProbe == None && obs[i].idleProbe == None
    ensures forall i :: 0 <= i < |obs| ==> Decisions(cfg, obs)[i] == SkipActive
  {
    forall i | 0 <= i < |obs|
      ensures Decisions(cfg, obs)[i] == SkipActive
    {
      DecisionAt(cfg, obs, i);
    }
  }

  /** A failed lock probe reads as "not locked", so the pass goes on to the idle check whatever
      the screen's real state: with idle time at or above the threshold and the interval elapsed
      since the last movement, it moves the cursor. */
  lemma FailedLockProbeLetsPassThrough(cfg: TickConfig, obs: seq<Observation>, j: nat)
    requires j < |obs|
    requires obs[j].lockProbe == None
    requires obs[j].idleProbe.Some? && obs[j].idleProbe.value >= cfg.idleThreshold as real
    requires obs[j].now - LastMove(cfg, obs[..j]) >= cfg.interval as real
    ensures Decisions(cfg, obs)[j] == MoveCursor
    ensures LastMove(cfg, obs[..j + 1]) == obs[j].now
  {
    DecisionAt(cfg, obs, j);
    LastMoveAt(cfg, obs, j);
  }
}
