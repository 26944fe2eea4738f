/**
 * The workout-service client of src/peloton.cpp: the sticky invalid-credentials
 * flag of the login, the poll that decides when the latest workout has
 * started, and the rebuilding of `trainrows` from a performance reply or
 * from a fallback provider's list.
 *
 * HTTP requests are recorded as counters or as the ids they name, the single
 * `QTimer` as the interval it was last started with (`None` when stopped),
 * and emitted signals as counters or logs of their arguments.
 */
module Peloton {
  import opened Wrappers
  import opened Strings
  import opened QtTime
  import opened PelotonRows

  /** The username setting's default: the client never starts with it. */
  const DefaultUsername: string := "username"

  /** The workout id requested in test mode instead of the polled one. */
  const TestWorkoutId: string := "eaa6f381891443b995f68f89f9a178be"

  const InProgress: string := "IN_PROGRESS"

  /** Timer intervals in seconds. */
  const RetrySeconds: nat := 10
  const SummaryTimeoutSeconds: nat := 60
  const PerformanceRecheckSeconds: nat := 30

  // ---------------------------------------------------------------------
  // Login and the credentials flag
  // ---------------------------------------------------------------------

  /** What the login path reads and writes. */
  datatype EngineState = EngineState(
    credentialsWrong: bool,
    timer: Option<nat>,
    loginRequests: nat,
    userId: string,
    loginStates: seq<bool>,
    workoutListRequests: nat)

  /** `startEngine`: nothing once the credentials are known to be wrong; otherwise stop the timer and post a login. */
  function OnStartEngine(s: EngineState): (r: EngineState)
    ensures s.credentialsWrong ==> r == s
    ensures !s.credentialsWrong ==> r.loginRequests == s.loginRequests + 1 && r.timer.None?
    ensures r.credentialsWrong == s.credentialsWrong && r.workoutListRequests == s.workoutListRequests
  {
    if s.credentialsWrong then s
    else s.(timer := None, loginRequests := s.loginRequests + 1)
  }

  /**
   * `login_onfinish`: a non-zero status marks the credentials wrong and
   * stops; status 0 records the user id, reports whether it is non-empty
   * and asks for the workout list.
   */
  function OnLoginReply(s: EngineState, status: int, userId: string): (r: EngineState)
    ensures status != 0 ==> r == s.(credentialsWrong := true)
    ensures status == 0 ==> r.credentialsWrong == s.credentialsWrong && r.userId == userId
                            && r.loginStates == s.loginStates + [userId != ""]
                            && r.workoutListRequests == s.workoutListRequests + 1
    ensures r.loginRequests == s.loginRequests
  {
    if status != 0 then s.(credentialsWrong := true)
    else s.(userId := userId, loginStates := s.loginStates + [userId != ""],
            workoutListRequests := s.workoutListRequests + 1)
  }

  /** The events the login path reacts to. */
  datatype EngineEvent = StartEngine | LoginReply(status: int, userId: string)

  function OnEngineEvent(s: EngineState, e: EngineEvent): (r: EngineState)
  {
    match e
    case StartEngine => OnStartEngine(s)
    case LoginReply(status, userId) => OnLoginReply(s, status, userId)
  }

  function RunEngine(s: EngineState, events: seq<EngineEvent>): (r: EngineState)
  {
    if events == [] then s else OnEngineEvent(RunEngine(s, events[..|events| - 1]), events[|events| - 1])
  }

  /**
   * Once the credentials are wrong they stay wrong, and no later event posts
   * another login.
   */
  lemma {:induction false} CredentialsWrongSticky(s: EngineState, events: seq<EngineEvent>)
    requires s.credentialsWrong
    ensures var r := RunEngine(s, events);
            && r.credentialsWrong
            && r.loginRequests == s.loginRequests
  {
    if events != [] {
      CredentialsWrongSticky(s, events[..|events| - 1]);
    }
  }

  /** A refused login ends all logins: after it, any events post no login. */
  lemma RefusedLoginStopsEngine(s: EngineState, status: int, userId: string, later: seq<EngineEvent>)
    requires status != 0
    ensures var refused := OnLoginReply(s, status, userId);
            RunEngine(refused, later).loginRequests == s.loginRequests
  {
    CredentialsWrongSticky(OnLoginReply(s, status, userId), later);
  }

  // ---------------------------------------------------------------------
  // The workout-list poll
  // ---------------------------------------------------------------------

  /** The `id` and `status` of the first entry of the workout list. */
  datatype WorkoutEntry = WorkoutEntry(id: string, status: string)

  /**
   * The latest workout counts as started when its status contains
   * IN_PROGRESS in any case and either the recorded status lacks IN_PROGRESS
   * (compared case-sensitively) or the id differs from the recorded one; in
   * test mode it always does.
   */
  predicate StartsWorkout(recordedStatus: string, recordedId: string, latest: WorkoutEntry, testMode: bool)
  {
    (ContainsIgnoringCase(latest.status, InProgress) && !Contains(recordedStatus, InProgress))
    || (ContainsIgnoringCase(latest.status, InProgress) && latest.id != recordedId)
    || testMode
  }

  /** What the poll reads and writes. */
  datatype PollState = PollState(status: string, id: string, timer: Option<nat>, summaryRequests: seq<string>)

  /**
   * `workoutlist_onfinish`: an empty list retries in 10 s. A started workout
   * records its id (the fixed test id in test mode) and, when a device is
   * connected or in test mode, requests its summary, waits up to a minute and
   * records the status; without a device it only retries in 10 s. Any other
   * reply records status and id and retries in 10 s.
   */
  function OnWorkoutList(s: PollState, data: seq<WorkoutEntry>, devicePresent: bool, testMode: bool): (r: PollState)
  {
    if data == [] then s.(timer := Some(RetrySeconds))
    else
      var latest := data[0];
      if StartsWorkout(s.status, s.id, latest, testMode) then
        var id := if testMode then TestWorkoutId else latest.id;
        if devicePresent || testMode then
          PollState(latest.status, id, Some(SummaryTimeoutSeconds), s.summaryRequests + [id])
        else
          s.(id := id, timer := Some(RetrySeconds))
      else
        PollState(latest.status, latest.id, Some(RetrySeconds), s.summaryRequests)
  }

  /** An empty workout list changes neither the recorded status nor the id, and requests nothing. */
  lemma PollEmptyList(s: PollState, devicePresent: bool, testMode: bool)
    ensures var r := OnWorkoutList(s, [], devicePresent, testMode);
            r.status == s.status && r.id == s.id && r.summaryRequests == s.summaryRequests
            && r.timer == Some(RetrySeconds)
  {
  }

  /**
   * A summary is requested exactly when the latest workout counts as started
   * and a device is connected or test mode is on; it names the workout id then
   * recorded and the timer waits a minute for it.
   */
  lemma PollRequestsSummary(s: PollState, data: seq<WorkoutEntry>, devicePresent: bool, testMode: bool)
    ensures var r := OnWorkoutList(s, data, devicePresent, testMode);
            && (r.summaryRequests != s.summaryRequests <==>
                  data != [] && StartsWorkout(s.status, s.id, data[0], testMode) && (devicePresent || testMode))
            && (r.summaryRequests != s.summaryRequests ==>
                  && r.summaryRequests == s.summaryRequests + [r.id]
                  && r.id == (if testMode then TestWorkoutId else data[0].id)
                  && r.status == data[0].status
                  && r.timer == Some(SummaryTimeoutSeconds))
  {
  }

  /**
   * Without a device a newly in-progress workout is not recorded as such, so
   * the same reply counts as a start again on the next poll.
   */
  lemma PollRetriggersWithoutDevice(s: PollState, data: seq<WorkoutEntry>)
    requires data != [] && ContainsIgnoringCase(data[0].status, InProgress) && !Contains(s.status, InProgress)
    ensures var r := OnWorkoutList(s, data, false, false);
            && r.summaryRequests == s.summaryRequests
            && r.status == s.status
            && StartsWorkout(r.status, r.id, data[0], false)
  {
  }

  /**
   * A start that is due only to a new id, while the recorded status already
   * contains IN_PROGRESS, records the id even without a device: the next poll
   * with the same reply does not count it as a start again.
   */
  lemma PollIdOnlyStartNotRetried(s: PollState, data: seq<WorkoutEntry>)
    requires data != [] && ContainsIgnoringCase(data[0].status, InProgress) && Contains(s.status, InProgress)
    requires data[0].id != s.id
    ensures var r := OnWorkoutList(s, data, false, false);
            && r.summaryRequests == s.summaryRequests
            && !StartsWorkout(r.status, r.id, data[0], false)
  {
  }

  /**
   * With a device, a started workout whose status spells IN_PROGRESS in
   * upper case is recorded, so polling the same reply again is not a new start.
   */
  lemma PollStartsOnce(s: PollState, data: seq<WorkoutEntry>)
    requires data != [] && Contains(data[0].status, InProgress)
    ensures var r := OnWorkoutList(s, data, true, false);
            !StartsWorkout(r.status, r.id, data[0], false)
  {
  }

  /**
   * The new status is matched ignoring case but the recorded one with case:
   * with a device, a status that spells IN_PROGRESS only in another case is
   * recorded as it came, so every poll of the same reply is a new start and
   * requests the summary again.
   */
  lemma PollLowerCaseStatusRetriggers(s: PollState, data: seq<WorkoutEntry>)
    requires data != [] && ContainsIgnoringCase(data[0].status, InProgress) && !Contains(data[0].status, InProgress)
    ensures var r := OnWorkoutList(s, data, true, false);
            && r.status == data[0].status
            && StartsWorkout(r.status, r.id, data[0], false)
            && OnWorkoutList(r, data, true, false).summaryRequests == r.summaryRequests + [data[0].id]
  {
  }

  /** A reply whose status reads "in_progress" is such a status. */
  lemma {:induction false} LowerCaseInProgress()
    ensures ContainsIgnoringCase("in_progress", InProgress)
    ensures !Contains("in_progress", InProgress)
  {
    assert Upper("in_progress") == InProgress;
    assert Upper(InProgress) == InProgress;
    assert StartsWith(Upper("in_progress"), Upper(InProgress));
    assert "in_progress"[..|InProgress|] != InProgress by {
      assert "in_progress"[0] != InProgress[0];
    }
    ShorterContainsNothing("in_progress"[1..], InProgress);
  }

  // ---------------------------------------------------------------------
  // The client
  // ---------------------------------------------------------------------

  class PelotonClient {
    var trainrows: seq<TrainRow>
    var workoutStartedSignals: nat
    var fallbackSearches: nat

    var currentWorkoutStatus: string
    var currentWorkoutId: string
    var summaryRequests: seq<string>
    var timer: Option<nat>

    var credentialsWrong: bool
    var loginRequests: nat
    var userId: string
    var loginStateSignals: seq<bool>
    var workoutListRequests: nat

    var testMode: bool
    /** Whether the timer is wired to `startEngine` (the username was not the default). */
    var engineEnabled: bool

    function EngineView(): EngineState
      reads this
    {
      EngineState(credentialsWrong, timer, loginRequests, userId, loginStateSignals, workoutListRequests)
    }

    function PollView(): PollState
      reads this
    {
      PollState(currentWorkoutStatus, currentWorkoutId, timer, summaryRequests)
    }

    /** With the default username nothing is started; otherwise the engine starts at once. */
    constructor(username: string)
      ensures engineEnabled == (username != DefaultUsername)
      ensures loginRequests == (if engineEnabled then 1 else 0) && !credentialsWrong && timer.None?
      ensures trainrows == [] && workoutStartedSignals == 0 && fallbackSearches == 0
      ensures currentWorkoutStatus == "" && currentWorkoutId == "" && summaryRequests == []
      ensures userId == "" && loginStateSignals == [] && workoutListRequests == 0 && !testMode
    {
      trainrows := [];
      workoutStartedSignals := 0;
      fallbackSearches := 0;
      currentWorkoutStatus := "";
      currentWorkoutId := "";
      summaryRequests := [];
      timer := None;
      credentialsWrong := false;
      loginRequests := 0;
      userId := "";
      loginStateSignals := [];
      workoutListRequests := 0;
      testMode := false;
      engineEnabled := username != DefaultUsername;
      new;
      if engineEnabled {
        StartEngine();
      }
    }

    method SetTestMode(test: bool)
      modifies this`testMode
      ensures testMode == test
    {
      testMode := test;
    }

    /** `startEngine`. */
    method StartEngine()
      modifies this`timer, this`loginRequests
      ensures EngineView() == OnStartEngine(old(EngineView()))
    {
      if credentialsWrong {
        return;
      }
      timer := None;
      loginRequests := loginRequests + 1;
    }

    /** The timer's timeout, which is wired to `startEngine` only when the engine was enabled. */
    method TimerFired()
      modifies this`timer, this`loginRequests
      ensures engineEnabled ==> EngineView() == OnStartEngine(old(EngineView()))
      ensures !engineEnabled ==> EngineView() == old(EngineView())
    {
      if engineEnabled {
        StartEngine();
      }
    }

    /** `login_onfinish`, with the reply's `status` and `user_id`. */
    method LoginOnFinish(status: int, replyUserId: string)
      modifies this`credentialsWrong, this`userId, this`loginStateSignals, this`workoutListRequests
      ensures EngineView() == OnLoginReply(old(EngineView()), status, replyUserId)
    {
      if status != 0 {
        credentialsWrong := true;
        return;
      }
      userId := replyUserId;
      loginStateSignals := loginStateSignals + [userId != ""];
      workoutListRequests := workoutListRequests + 1;
    }

    /** `workoutlist_onfinish`, with the reply's `data` entries and whether a device is connected. */
    method WorkoutListOnFinish(data: seq<WorkoutEntry>, devicePresent: bool)
      modifies this`currentWorkoutStatus, this`currentWorkoutId, this`timer, this`summaryRequests
      ensures PollView() == OnWorkoutList(old(PollView()), data, devicePresent, testMode)
    {
      if data == [] {
        timer := Some(RetrySeconds);
        return;
      }
      var id := data[0].id;
      var status := data[0].status;
      if StartsWorkout(currentWorkoutStatus, currentWorkoutId, data[0], testMode) {
        if testMode {
          id := TestWorkoutId;
        }
        currentWorkoutId := id;
        if devicePresent || testMode {
          summaryRequests := summaryRequests + [id];
          timer := Some(SummaryTimeoutSeconds);
          currentWorkoutStatus := status;
        } else {
          timer := Some(RetrySeconds);
        }
      } else {
        timer := Some(RetrySeconds);
        currentWorkoutStatus := status;
        currentWorkoutId := id;
      }
    }

    /**
     * `performance_onfinish`: rebuild the rows from the first source the
     * reply offers; emit `workoutStarted` when there are rows, otherwise
     * search the fallback providers; recheck in 30 s.
     */
    method PerformanceOnFinish(p: Performance, device: Option<DeviceKind>, difficulty: string,
                               forceSpeed: bool, resolution: int, toBike: int -> int)
      requires CanBuildRows(p, device)
      modifies this`trainrows, this`workoutStartedSignals, this`fallbackSearches, this`timer
      ensures trainrows == BuildRows(p, device, difficulty, forceSpeed, resolution, toBike)
      ensures workoutStartedSignals == old(workoutStartedSignals) + (if trainrows != [] then 1 else 0)
      ensures fallbackSearches == old(fallbackSearches) + (if trainrows == [] then 1 else 0)
      ensures timer == Some(PerformanceRecheckSeconds)
    {
      FillTrainRows(p, device, difficulty, forceSpeed, resolution, toBike);
      if trainrows != [] {
        workoutStartedSignals := workoutStartedSignals + 1;
      } else {
        fallbackSearches := fallbackSearches + 1;
      }
      timer := Some(PerformanceRecheckSeconds);
    }

    /** Clears the rows and refills them from the first source the performance data offers. */
    method FillTrainRows(p: Performance, device: Option<DeviceKind>, difficulty: string,
                         forceSpeed: bool, resolution: int, toBike: int -> int)
      requires CanBuildRows(p, device)
      modifies this`trainrows
      ensures trainrows == BuildRows(p, device, difficulty, forceSpeed, resolution, toBike)
    {
      trainrows := [];
      if p.targetGraphMetrics.Some? {
        AppendResistanceRows(p.targetGraphMetrics.value, difficulty, device, toBike, resolution);
      } else if UsesTargets(p, device) {
        AppendTargetRows(p.targetMetrics.value, p.distanceUnit, difficulty, forceSpeed);
      } else if p.segments != [] && device.value != BikeDevice {
        AppendSegmentRows(p.segments);
      }
    }

    /** The compacting loop over the resistance samples. */
    method AppendResistanceRows(metrics: seq<GraphMetric>, difficulty: string, device: Option<DeviceKind>,
                                toBike: int -> int, resolution: int)
      requires trainrows == []
      modifies this`trainrows
      ensures trainrows == Compact(Samples(metrics, difficulty), device, toBike, resolution)
    {
      var current := Series(metrics, 1, difficulty);
      var lower := Series(metrics, 1, "lower");
      var upper := Series(metrics, 1, "upper");
      var cadences := Series(metrics, 0, difficulty);
      var lowerCadences := Series(metrics, 0, "lower");
      var upperCadences := Series(metrics, 0, "upper");
      ghost var samples := Samples(metrics, difficulty);
      for i := 0 to |current|
        invariant trainrows == Compact(samples[..i], device, toBike, resolution)
      {
        var t := Targets(current[i], At(lower, i), At(upper, i), At(cadences, i), At(lowerCadences, i),
                         At(upperCadences, i));
        SampleAt(metrics, difficulty, i);
        AppendSampleAt(samples, i, t, device, toBike, resolution);
      }
      assert samples[..|current|] == samples;
    }

    /** Sample `i` extends the rows compacted from the samples before it. */
    method AppendSampleAt(ghost samples: seq<Targets>, i: nat, t: Targets, device: Option<DeviceKind>,
                          toBike: int -> int, resolution: int)
      requires i < |samples| && t == samples[i]
      requires trainrows == Compact(samples[..i], device, toBike, resolution)
      modifies this`trainrows
      ensures trainrows == Compact(samples[..i + 1], device, toBike, resolution)
    {
      CompactPrefix(samples, i, device, toBike, resolution);
      AppendSample(i == 0, t, device, toBike, resolution);
    }

    /** One sample of the compacting loop: open a row, or lengthen the last one. */
    method AppendSample(first: bool, t: Targets, device: Option<DeviceKind>, toBike: int -> int, resolution: int)
      requires AllResistanceRows(trainrows) && (first || trainrows != [])
      modifies this`trainrows
      ensures trainrows == CompactStep(old(trainrows), first, t, device, toBike, resolution)
    {
      if first || t != trainrows[|trainrows| - 1].targets {
        trainrows := trainrows + [ResistanceRow(MakeTime(0, 0, resolution), BikeFields(device, toBike, t), t)];
      } else {
        var last := trainrows[|trainrows| - 1];
        trainrows := trainrows[..|trainrows| - 1] + [ResistanceRow(AddSecs(last.duration, resolution), last.bike, last.targets)];
      }
    }

    /** The loop over the treadmill target metrics. */
    method AppendTargetRows(tms: seq<TargetMetric>, unit: string, difficulty: string, forceSpeed: bool)
      requires trainrows == []
      modifies this`trainrows
      ensures trainrows == TargetRows(tms, unit, difficulty, forceSpeed)
    {
      var miles := Miles(unit);
      var level := LevelOf(difficulty);
      for i := 0 to |tms|
        invariant trainrows == TargetRows(tms[..i], unit, difficulty, forceSpeed)
      {
        TargetRowsPrefix(tms, i, unit, difficulty, forceSpeed);
        AppendTargetRow(tms[i], miles, level, unit, difficulty, forceSpeed);
      }
      assert tms[..|tms|] == tms;
    }

    /** One target metric: a speed row when it has two pairs and offsets. */
    method AppendTargetRow(tm: TargetMetric, miles: real, level: Level, unit: string, difficulty: string,
                           forceSpeed: bool)
      requires miles == Miles(unit) && level == LevelOf(difficulty)
      modifies this`trainrows
      ensures trainrows == old(trainrows) + (if HasTargetRow(tm) then [TargetRow(tm, unit, difficulty, forceSpeed)] else [])
    {
      if |tm.metrics| > 1 && tm.offsets.Some? {
        var speed := Speed(level, tm.metrics[0], miles);
        var inclination := Pick(level, tm.metrics[1]);
        var duration := TargetDuration(tm.offsets.value);
        trainrows := trainrows + [SpeedRow(duration, speed, inclination, forceSpeed)];
      }
    }

    /** The loop over the segments. */
    method AppendSegmentRows(segs: seq<Segment>)
      requires trainrows == []
      modifies this`trainrows
      ensures trainrows == SegmentRows(segs)
    {
      for i := 0 to |segs|
        invariant trainrows == SegmentRows(segs[..i])
      {
        assert segs[..i + 1][..i] == segs[..i];
        var len := segs[i].length;
        if len > 0 {
          trainrows := trainrows + [MetsRow(MakeTime(0, len / 60, len % 60), segs[i].mets)];
        }
      }
      assert segs[..|segs|] == segs;
    }

    /**
     * `hfb_trainrows` and `pzp_trainrows`: the rows become a copy of the
     * provider's list, and `workoutStarted` is emitted when it is non-empty.
     */
    method TakeRows(list: seq<TrainRow>)
      modifies this`trainrows, this`workoutStartedSignals
      ensures trainrows == list
      ensures workoutStartedSignals == old(workoutStartedSignals) + (if list != [] then 1 else 0)
    {
      trainrows := [];
      for i := 0 to |list|
        invariant trainrows == list[..i]
        invariant workoutStartedSignals == old(workoutStartedSignals)
      {
        trainrows := trainrows + [list[i]];
      }
      assert list[..|list|] == list;
      if trainrows != [] {
        workoutStartedSignals := workoutStartedSignals + 1;
      }
    }
  }
}
