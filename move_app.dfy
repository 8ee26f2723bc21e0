/** move.py: the full program. A `Move` object holds the circle geometry, the idle threshold and
    the `running` flag; `Start` is the program's entry point (argument handling, saved settings,
    interval validation, then the polling loop). */
module MoveApp {
  import opened Basics
  import opened Tick
  import opened Circle

  /** The settings record, as the key-value file holds it. */
  type Settings = map<string, int>

  const INTERVAL_MINUTES_KEY: string := "interval_minutes"
  const INTERVAL_SECONDS_KEY: string := "interval_seconds"
  const CIRCLE_RADIUS_KEY: string := "circle_radius"
  const CIRCLE_STEPS_KEY: string := "circle_steps"
  const IDLE_THRESHOLD_KEY: string := "idle_threshold"

  /** The keys of the defaults, in the order load_settings walks them. */
  const DEFAULT_KEYS: seq<string> :=
    [INTERVAL_MINUTES_KEY, INTERVAL_SECONDS_KEY, CIRCLE_RADIUS_KEY, CIRCLE_STEPS_KEY, IDLE_THRESHOLD_KEY]

  /** The default settings: a 1 minute 0 second interval, radius 25, 20 steps, 30 seconds idle. */
  function DefaultSettings(): Settings {
    map[INTERVAL_MINUTES_KEY := 1, INTERVAL_SECONDS_KEY := 0, CIRCLE_RADIUS_KEY := 25,
        CIRCLE_STEPS_KEY := 20, IDLE_THRESHOLD_KEY := 30]
  }

  /** The state of the settings file when the program starts. */
  datatype SettingsFile =
    | Missing                     // no file
    | Unreadable                  // the file exists but cannot be read or is not valid JSON
    | Parsed(contents: Settings)  // the file holds this record

  /** What load_settings returns: the file's record with every missing default key added, or
      the defaults alone when there is no readable file. */
  function LoadedSettings(file: SettingsFile): Settings {
    match file
    case Parsed(contents) =>
      map k | k in contents.Keys + DefaultSettings().Keys ::
        if k in contents then contents[k] else DefaultSettings()[k]
    case _ => DefaultSettings()
  }

  /** The record Move.run writes when asked to save its settings. */
  function SavedSettings(minutes: int, seconds: int, radius: int, steps: int, idleThreshold: int): Settings {
    map[INTERVAL_MINUTES_KEY := minutes, INTERVAL_SECONDS_KEY := seconds, CIRCLE_RADIUS_KEY := radius,
        CIRCLE_STEPS_KEY := steps, IDLE_THRESHOLD_KEY := idleThreshold]
  }

  class Move {
    var running: bool
    var circleRadius: int
    var circleSteps: int
    var idleThreshold: int

    /** A stopped jiggler with radius 25, 20 steps and a 30 second idle threshold. */
    constructor ()
      ensures !running && circleRadius == 25 && circleSteps == 20 && idleThreshold == 30
    {
      running := false;
      circleRadius := 25;
      circleSteps := 20;
      idleThreshold := 30;
    }

    /** The interval in seconds of `minutes` minutes and `seconds` seconds. */
    static function IntervalSeconds(minutes: int, seconds: int): int {
      minutes * 60 + seconds
    }

    /** Loads the settings: adds each default key the file lacks, in place, and keeps the rest. */
    method LoadSettings(file: SettingsFile) returns (settings: Settings)
      ensures settings == LoadedSettings(file)
      ensures DefaultSettings().Keys <= settings.Keys
      ensures !file.Parsed? ==> settings == DefaultSettings()
      ensures file.Parsed? ==> settings.Keys == file.contents.Keys + DefaultSettings().Keys
      ensures file.Parsed? ==> forall k :: k in file.contents ==> settings[k] == file.contents[k]
      ensures forall k :: k in settings && !(file.Parsed? && k in file.contents) ==> settings[k] == DefaultSettings()[k]
    {
      var defaults := DefaultSettings();
      if !file.Parsed? {
        return defaults;
      }
      settings := file.contents;
      var i := 0;
      while i < |DEFAULT_KEYS|
        invariant 0 <= i <= |DEFAULT_KEYS|
        invariant file.contents.Keys <= settings.Keys
        invariant forall j :: 0 <= j < i ==> DEFAULT_KEYS[j] in settings
        invariant forall k :: k in settings ==> k in file.contents || k in DEFAULT_KEYS[..i]
        invariant forall k :: k in settings ==> settings[k] == if k in file.contents then file.contents[k] else defaults[k]
      {
        var key := DEFAULT_KEYS[i];
        if key !in settings {
          settings := settings[key := defaults[key]];
        }
        i := i + 1;
      }
      assert DEFAULT_KEYS[..i] == DEFAULT_KEYS;
      assert forall k :: k in DEFAULT_KEYS <==> k in defaults;
      assert settings.Keys == file.contents.Keys + defaults.Keys;
    }

    /** One movement: up to `circleSteps` moves around `start`, checking `running` before each,
        then a move back to `start`. The cursor library raises at call `failAt`, if any; that
        ends the movement and clears `running`. */
    method MoveMouseCircle(start: Point, offset: OffsetFn, failAt: Option<nat>) returns (path: seq<Point>)
      modifies this`running
      ensures var planned := PlannedPath(start, circleRadius, circleSteps, offset,
                                         if old(running) then RangeCount(circleSteps) else 0);
        && path == Emitted(planned, failAt)
        && running == (old(running) && !Fails(planned, failAt))
    {
      path := [];
      var raised := false;
      var i := 0;
      while i < circleSteps
        invariant 0 <= i <= RangeCount(circleSteps)
        invariant running == old(running)
        invariant !running ==> i == 0
        invariant path == CircleTargets(start, circleRadius, circleSteps, offset, i)
        invariant !(failAt.Some? && failAt.value < i)
      {
        if !running {
          break;
        }
        if failAt == Some(i) {
          raised := true;
          break;
        }
        path := path + [Shift(start, offset(circleRadius, circleSteps, i))];
        i := i + 1;
      }
      if !raised {
        // the move back to the start position
        if failAt == Some(|path|) {
          raised := true;
        } else {
          path := path + [start];
        }
      }
      if raised {
        running := false;
      }
    }

    /** One pass of the polling loop, the body of `while self.running`: decide, and move the
        cursor when the decision says so. */
    method Pass(cfg: TickConfig, lastMoveTime: real, o: Observation, offset: OffsetFn)
      returns (tick: TickResult, path: seq<Point>)
      requires running
      modifies this`running
      ensures tick == Step(cfg, lastMoveTime, o)
      ensures path == PassPath(circleRadius, circleSteps, offset, o, tick.action)
      ensures running == !PassFailed(circleSteps, o, tick.action)
    {
      tick := Step(cfg, lastMoveTime, o);
      path := [];
      if tick.action == MoveCursor {
        path := MoveMouseCircle(o.cursor, offset, o.failAt);
        PassFailedMeansCut(circleRadius, circleSteps, offset, o);
      }
    }

    /** The polling loop. Observation `obs[i]` answers the queries of pass `i`; running out of
        observations stands for the user's Ctrl+C. Returns the action of every pass taken, the
        cursor targets of each pass, and the record written when `saveSettingsFlag` is set. */
    method Run(intervalMinutes: int, intervalSeconds: int, saveSettingsFlag: bool,
               obs: seq<Observation>, offset: OffsetFn)
      returns (actions: seq<Action>, paths: seq<seq<Point>>, saved: Option<Settings>, stopped: bool)
      modifies this`running
      ensures !running
      ensures saved == if saveSettingsFlag
                       then Some(SavedSettings(intervalMinutes, intervalSeconds, circleRadius, circleSteps, idleThreshold))
                       else None
      ensures |actions| == |paths| <= |obs|
      ensures actions == Decisions(TickConfig(IntervalSeconds(intervalMinutes, intervalSeconds), idleThreshold), obs[..|actions|])
      ensures PathsFollow(circleRadius, circleSteps, offset, obs, actions, paths)
      ensures forall j :: 0 <= j < |actions| ==>
        (PassFailed(circleSteps, obs[j], actions[j]) <==> stopped && j == |actions| - 1)
      ensures stopped ==> 0 < |actions|
      ensures !stopped ==> |actions| == |obs|
      ensures IntervalSeconds(intervalMinutes, intervalSeconds) >= 0 ==>
        MovesSpacedBy(obs[..|actions|], actions, IntervalSeconds(intervalMinutes, intervalSeconds))
    {
      var interval := IntervalSeconds(intervalMinutes, intervalSeconds);
      var cfg := TickConfig(interval, idleThreshold);
      saved := None;
      if saveSettingsFlag {
        saved := Some(SavedSettings(intervalMinutes, intervalSeconds, circleRadius, circleSteps, idleThreshold));
      }
      running := true;
      actions, paths := Poll(cfg, obs, offset);
      stopped := !running;
      // the Ctrl+C handler, or already cleared by a failed movement
      running := false;
      if interval >= 0 {
        RunSpaced(cfg, obs[..|actions|]);
      }
    }

    /** The body of `while self.running`, from the first pass until a failed movement clears
        `running` or the observations run out. */
    method Poll(cfg: TickConfig, obs: seq<Observation>, offset: OffsetFn)
      returns (actions: seq<Action>, paths: seq<seq<Point>>)
      requires running
      modifies this`running
      ensures |actions| == |paths| <= |obs|
      ensures actions == Decisions(cfg, obs[..|actions|])
      ensures PathsFollow(circleRadius, circleSteps, offset, obs, actions, paths)
      ensures forall j :: 0 <= j < |actions| ==>
        (PassFailed(circleSteps, obs[j], actions[j]) <==> !running && j == |actions| - 1)
      ensures !running ==> 0 < |actions|
      ensures running ==> |actions| == |obs|
    {
      var radius, steps := circleRadius, circleSteps;
      var lastMoveTime := INITIAL_LAST_MOVE;
      actions, paths := [], [];
      var i := 0;
      while running && i < |obs|
        invariant i == |actions| == |paths| <= |obs|
        invariant circleRadius == radius && circleSteps == steps
        invariant actions == Decisions(cfg, obs[..i])
        invariant lastMoveTime == LastMove(cfg, obs[..i])
        invariant PathsFollow(radius, steps, offset, obs, actions, paths)
        invariant forall j :: 0 <= j < i ==> (PassFailed(steps, obs[j], actions[j]) <==> !running && j == i - 1)
        invariant !running ==> 0 < i
      {
        var tick, path := Pass(cfg, lastMoveTime, obs[i], offset);
        DecisionsSnoc(cfg, obs, i);
        lastMoveTime := tick.lastMove;
        actions, paths := actions + [tick.action], paths + [path];
        i := i + 1;
      }
    }
  }

  /** The command line of move.py, already parsed: `-m`, `-s`, `--save`, `--load`, `--radius`,
      `--steps`, `--idle`. */
  datatype CliArgs = CliArgs(
    minutes: Option<int>,
    seconds: Option<int>,
    save: bool,
    load: bool,
    radius: Option<int>,
    steps: Option<int>,
    idle: Option<int>)

  /** Why the program refuses to start. */
  datatype IntervalError = NegativeInterval | ZeroInterval

  /** Everything the polling loop runs with. */
  datatype Config = Config(minutes: int, seconds: int, radius: int, steps: int, idleThreshold: int)

  /** The interval the saved settings hold. */
  function SavedInterval(settings: Settings): (int, int)
    requires INTERVAL_MINUTES_KEY in settings && INTERVAL_SECONDS_KEY in settings
  {
    (settings[INTERVAL_MINUTES_KEY], settings[INTERVAL_SECONDS_KEY])
  }

  /** The interval the command line gives, an absent `-m` or `-s` counting as 0. */
  function CliInterval(args: CliArgs): (int, int) {
    (args.minutes.GetOr(0), args.seconds.GetOr(0))
  }

  /** The interval the program uses before validation: the saved one with `--load`, and whenever
      the command line amounts to 0 minutes 0 seconds; the command line's otherwise. */
  function SelectInterval(args: CliArgs, settings: Settings): (sel: (int, int))
    requires INTERVAL_MINUTES_KEY in settings && INTERVAL_SECONDS_KEY in settings
    ensures args.load ==> sel == SavedInterval(settings)
    ensures CliInterval(args) == (0, 0) ==> sel == SavedInterval(settings)
    ensures !args.load && CliInterval(args) != (0, 0) ==> sel == CliInterval(args)
  {
    if args.load || (args.minutes.None? && args.seconds.None?) then
      SavedInterval(settings)
    else
      var (m, s) := CliInterval(args);
      if m == 0 && s == 0 then SavedInterval(settings) else (m, s)
  }

  /** The validation before the loop: no negative part, and not both parts zero. */
  function ValidateInterval(minutes: int, seconds: int): (r: Result<(int, int), IntervalError>)
    ensures r.Ok? <==> minutes >= 0 && seconds >= 0 && Move.IntervalSeconds(minutes, seconds) > 0
    ensures r.Ok? ==> r.value == (minutes, seconds)
    ensures r == Err(NegativeInterval) <==> minutes < 0 || seconds < 0
  {
    if minutes < 0 || seconds < 0 then Err(NegativeInterval)
    else if minutes == 0 && seconds == 0 then Err(ZeroInterval)
    else Ok((minutes, seconds))
  }

  /** The configuration main hands to the loop: the validated interval, and radius, steps and
      idle threshold from the command line where given and from the settings otherwise. */
  function ResolveConfig(args: CliArgs, settings: Settings): (r: Result<Config, IntervalError>)
    requires DefaultSettings().Keys <= settings.Keys
    ensures r.Err? <==> ValidateInterval(SelectInterval(args, settings).0, SelectInterval(args, settings).1).Err?
    ensures r.Err? ==> r.error == ValidateInterval(SelectInterval(args, settings).0, SelectInterval(args, settings).1).error
    ensures r.Ok? ==> (r.value.minutes, r.value.seconds) == SelectInterval(args, settings)
    ensures r.Ok? ==> (r.value.minutes >= 0 && r.value.seconds >= 0
                       && Move.IntervalSeconds(r.value.minutes, r.value.seconds) > 0)
    ensures r.Ok? ==> && r.value.radius == args.radius.GetOr(settings[CIRCLE_RADIUS_KEY])
                      && r.value.steps == args.steps.GetOr(settings[CIRCLE_STEPS_KEY])
                      && r.value.idleThreshold == args.idle.GetOr(settings[IDLE_THRESHOLD_KEY])
  {
    var (m, s) := SelectInterval(args, settings);
    match ValidateInterval(m, s)
    case Err(e) => Err(e)
    case Ok(_) =>
      Ok(Config(m, s,
                args.radius.GetOr(settings[CIRCLE_RADIUS_KEY]),
                args.steps.GetOr(settings[CIRCLE_STEPS_KEY]),
                args.idle.GetOr(settings[IDLE_THRESHOLD_KEY])))
  }

  /** An interval of non-negative parts, not both zero, is a positive number of seconds. */
  lemma IntervalPositive(minutes: int, seconds: int)
    requires minutes >= 0 && seconds >= 0 && (minutes != 0 || seconds != 0)
    ensures Move.IntervalSeconds(minutes, seconds) > 0
  {
  }

  /** Settings saved by `--save` load back unchanged, and a later `--load` run with no other
      option resumes with exactly the saved configuration when its interval is valid. */
  lemma SaveThenLoad(minutes: int, seconds: int, radius: int, steps: int, idleThreshold: int)
    ensures LoadedSettings(Parsed(SavedSettings(minutes, seconds, radius, steps, idleThreshold)))
         == SavedSettings(minutes, seconds, radius, steps, idleThreshold)
    ensures minutes >= 0 && seconds >= 0 && (minutes != 0 || seconds != 0) ==>
      ResolveConfig(CliArgs(None, None, false, true, None, None, None),
                    LoadedSettings(Parsed(SavedSettings(minutes, seconds, radius, steps, idleThreshold))))
      == Ok(Config(minutes, seconds, radius, steps, idleThreshold))
  {
    var saved := SavedSettings(minutes, seconds, radius, steps, idleThreshold);
    assert saved.Keys == DefaultSettings().Keys;
    assert LoadedSettings(Parsed(saved)) == saved;
  }

  /** What a run of the program reports when it gets past validation; `stopped` says that a
      failed movement ended the loop before the user's Ctrl+C. */
  datatype RunReport = RunReport(config: Config, actions: seq<Action>, paths: seq<seq<Point>>,
                                 saved: Option<Settings>, stopped: bool)

  /** move.py's main: load the settings, resolve and validate the configuration, apply it to a
      new jiggler and run the loop over `obs`. Refuses to start exactly when the resolved interval
      is invalid; otherwise the loop decides with the resolved interval, which is positive, so
      any two movements are at least that interval apart. */
  method Start(args: CliArgs, file: SettingsFile, obs: seq<Observation>, offset: OffsetFn)
    returns (outcome: Result<RunReport, IntervalError>)
    ensures ResolveConfig(args, LoadedSettings(file)).Err? ==> outcome == Err(ResolveConfig(args, LoadedSettings(file)).error)
    ensures ResolveConfig(args, LoadedSettings(file)).Ok? ==>
      && outcome.Ok?
      && outcome.value.config == ResolveConfig(args, LoadedSettings(file)).value
    ensures outcome.Ok? ==>
      var c := outcome.value.config;
      var acts := outcome.value.actions;
      && Move.IntervalSeconds(c.minutes, c.seconds) > 0
      && |acts| == |outcome.value.paths| <= |obs|
      && acts == Decisions(TickConfig(Move.IntervalSeconds(c.minutes, c.seconds), c.idleThreshold), obs[..|acts|])
      && PathsFollow(c.radius, c.steps, offset, obs, acts, outcome.value.paths)
      && MovesSpacedBy(obs[..|acts|], acts, Move.IntervalSeconds(c.minutes, c.seconds))
      && (outcome.value.stopped ==> 0 < |acts|)
      && (!outcome.value.stopped ==> |acts| == |obs|)
      && (forall j :: 0 <= j < |acts| ==>
            (PassFailed(c.steps, obs[j], acts[j]) <==> outcome.value.stopped && j == |acts| - 1))
      && outcome.value.saved == if args.save
                                then Some(SavedSettings(c.minutes, c.seconds, c.radius, c.steps, c.idleThreshold))
                                else None
  {
    var jiggler := new Move();
    var settings := jiggler.LoadSettings(file);
    var resolved := ResolveConfig(args, settings);
    if resolved.Err? {
      return Err(resolved.error);
    }
    var c := resolved.value;
    jiggler.circleRadius := c.radius;
    jiggler.circleSteps := c.steps;
    jiggler.idleThreshold := c.idleThreshold;
    assert Move.IntervalSeconds(c.minutes, c.seconds) > 0;
    var actions, paths, saved, stopped := jiggler.Run(c.minutes, c.seconds, args.save, obs, offset);
    assert jiggler.circleRadius == c.radius && jiggler.circleSteps == c.steps && jiggler.idleThreshold == c.idleThreshold;
    outcome := Ok(RunReport(c, actions, paths, saved, stopped));
  }
}
