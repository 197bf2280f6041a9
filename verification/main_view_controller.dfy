/**
 MainViewController: the recorder screen of the first revision. It owns its
 own file writer, decides when to start and stop recording (record button,
 speed, g-force, battery), and keeps the latest location in a DriveInfo.
 The sample-buffer callback runs on the main queue; the completion of
 `finishWriting` runs wherever AVFoundation calls it. Each handler and each
 completion is treated as one atomic event, a step function over the
 screen's state. The date, the home directory and whether creating the file
 writer succeeds are inputs; a runtime trap is a `None` result.
 */
module MainViewController {
  import opened Wrappers
  import opened MediaTime
  import opened Paths
  import Config
  import FilenameUtil
  import VideoWriter
  import PlaylistViewController
  import PlaylistCell

  /** The fixed timescale of this screen's frame timestamps. */
  const FramesPerSecond: int := 25

  /** DriveInfo: the latest speed (km/h), altitude and position; all 0 at first. */
  datatype DriveInfo = DriveInfo(speed: real, altitude: real, latitude: real, longitude: real)

  const NewDriveInfo: DriveInfo := DriveInfo(0.0, 0.0, 0.0, 0.0)

  /** A location fix: speed in m/s (negative when invalid), altitude in m. */
  datatype Location = Location(speed: real, altitude: real, latitude: real, longitude: real)

  /** An accelerometer sample in g. */
  datatype Acceleration = Acceleration(x: real, y: real, z: real)

  datatype BatteryState = Unknown | Unplugged | Charging | Full

  /** The writer input, whether it was marked finished, and the times
      appended to it through the pixel-buffer adaptor. */
  datatype Input = Input(size: VideoWriter.FrameSize, finished: bool, appended: seq<CMTime>)

  datatype AssetWriter = AssetWriter(url: string, size: VideoWriter.FrameSize, sessionStart: CMTime, finishRequests: nat)

  /** The screen's recording state. The pixel-buffer adaptor is a separate
      object from the input: `pixelBuffer` holds the number of the recording
      it was made for, or nothing once a finish completion released it.
      `recordings` counts the recordings started so far, and
      `pendingCompletions` holds, for each requested finishWriting whose
      completion has not yet run, the number of the recording it stopped. */
  datatype MainState = MainState(
    config: Config.Config,
    driveInfo: DriveInfo,
    recordingInProgress: bool,
    frameNumber: nat,
    assetInput: Option<Input>,
    pixelBuffer: Option<nat>,
    recordings: nat,
    assetWriter: Option<AssetWriter>,
    pendingCompletions: seq<nat>)

  /** The screen after viewDidLoad: nothing recorded, no writer, no input, no adaptor. */
  function Init(config: Config.Config): (s: MainState)
    ensures !s.recordingInProgress && s.frameNumber == 0 && s.driveInfo == NewDriveInfo
    ensures s.assetInput.None? && s.pixelBuffer.None? && s.assetWriter.None? && |s.pendingCompletions| == 0
    ensures s.config == config && s.recordings == 0
  {
    MainState(config, NewDriveInfo, false, 0, None, None, 0, None, [])
  }

  /** What starting a recording needs from outside: the home directory, the
      current date's calendar fields, and whether the file writer could be
      created. */
  datatype StartEnv = StartEnv(home: string, now: FilenameUtil.DateFields, createOk: bool)

  predicate ValidEnv(env: StartEnv) {
    FilenameUtil.Valid(env.now)
  }

  /** The file a recording started at `now` is written to. */
  function OutputPath(env: StartEnv): string
    requires ValidEnv(env)
  {
    (env.home + "/Documents") + "/" + (FilenameUtil.FilenameFromDate(env.now) + ".mp4")
  }

  /** The recording's file name is its start date in the file-name pattern plus ".mp4". */
  lemma OutputPathName(env: StartEnv)
    requires ValidEnv(env)
    ensures LastPathComponent(OutputPath(env)) == FilenameUtil.FilenameFromDate(env.now) + ".mp4"
  {
    var f := FilenameUtil.FilenameFromDate(env.now);
    var name := f + ".mp4";
    FilenameUtil.FilenameHasNoSlash(env.now);
    assert '/' !in ".mp4";
    NoSlashInJoin(f, ".mp4");
    LastPathComponentOfJoin(env.home + "/Documents", name);
  }

  /** Frames appended to the current input are exactly frames 0 to frameNumber-1 at 1/25 s. */
  ghost predicate Aligned(s: MainState) {
    s.assetInput.Some? ==> s.assetInput.value.appended == FrameTimes(s.frameNumber, FramesPerSecond)
  }

  /** startRecording: recording is marked in progress, then a fresh input
      and a fresh adaptor are made and a writer created for
      Documents/<yyyyMMdd_HHmmss>.mp4; the frame counter restarts at 0 and
      the writer starts at time zero. When creating the writer fails the
      error is swallowed and startWriting is called on the previous writer:
      with none it traps on nil, and a previous writer has already started,
      so AVFoundation raises on the second startWriting. */
  function StartRecording(s: MainState, env: StartEnv): (r: Option<MainState>)
    requires ValidEnv(env)
    ensures r.Some? <==> env.createOk
    ensures r.Some? ==> r.value.recordingInProgress && r.value.frameNumber == 0
    ensures r.Some? ==> r.value.assetInput == Some(Input(VideoWriter.FrameSizeFor(s.config.videoQuality), false, []))
    ensures r.Some? ==> r.value.recordings == s.recordings + 1 && r.value.pixelBuffer == Some(r.value.recordings)
    ensures r.Some? ==> Aligned(r.value) && r.value.config == s.config && r.value.driveInfo == s.driveInfo
    ensures r.Some? ==> r.value.pendingCompletions == s.pendingCompletions
    ensures r.Some? ==>
              && r.value.assetWriter.Some?
              && r.value.assetWriter.value.url == OutputPath(env)
              && r.value.assetWriter.value.sessionStart == Zero
              && r.value.assetWriter.value.finishRequests == 0
  {
    if !env.createOk then None
    else
      var size := VideoWriter.FrameSizeFor(s.config.videoQuality);
      Some(s.(recordingInProgress := true, assetInput := Some(Input(size, false, [])),
              pixelBuffer := Some(s.recordings + 1), recordings := s.recordings + 1, frameNumber := 0,
              assetWriter := Some(AssetWriter(OutputPath(env), size, Zero, 0))))
  }

  /** stopRecording: recording is marked over and, when there is a writer,
      finishWriting is requested. That marks the writer's unfinished input
      finished at once and later runs a completion that releases the
      adaptor (`FinishCompleted`). With no writer nothing else happens. */
  function StopRecording(s: MainState): (r: MainState)
    ensures !r.recordingInProgress
    ensures s.assetWriter.None? ==> r == s.(recordingInProgress := false)
    ensures s.assetWriter.Some? ==>
              && r.assetWriter.Some?
              && r.assetWriter.value.finishRequests == s.assetWriter.value.finishRequests + 1
              && r.assetWriter.value.url == s.assetWriter.value.url
              && r.assetWriter.value.(finishRequests := s.assetWriter.value.finishRequests) == s.assetWriter.value
              && r.pendingCompletions == s.pendingCompletions + [s.recordings]
              && (s.assetInput.Some? ==> r.assetInput.Some? && r.assetInput.value.finished
                                         && r.assetInput.value.appended == s.assetInput.value.appended
                                         && r.assetInput.value.(finished := s.assetInput.value.finished)
                                            == s.assetInput.value)
    ensures r.frameNumber == s.frameNumber && r.pixelBuffer == s.pixelBuffer && r.recordings == s.recordings
    ensures r.config == s.config && r.driveInfo == s.driveInfo
    ensures r.assetInput.None? <==> s.assetInput.None?
  {
    var s' := s.(recordingInProgress := false);
    match s.assetWriter
    case None => s'
    case Some(w) =>
      var input := if s.assetInput.Some? then Some(s.assetInput.value.(finished := true)) else None;
      s'.(assetWriter := Some(w.(finishRequests := w.finishRequests + 1)), assetInput := input,
          pendingCompletions := s.pendingCompletions + [s.recordings])
  }

  /** The completion of the `i`-th outstanding finishWriting: it sets
      `pixelBuffer` to nil, whichever recording the adaptor belongs to by
      then; the input and everything else stay as they are. */
  function FinishCompleted(s: MainState, i: nat): (r: MainState)
    requires i < |s.pendingCompletions|
    ensures r.pixelBuffer.None?
    ensures |r.pendingCompletions| == |s.pendingCompletions| - 1
    ensures multiset(r.pendingCompletions) + multiset{s.pendingCompletions[i]} == multiset(s.pendingCompletions)
    ensures r.(pixelBuffer := s.pixelBuffer, pendingCompletions := s.pendingCompletions) == s
  {
    var p := s.pendingCompletions;
    assert p == p[..i] + [p[i]] + p[i + 1..];
    s.(pixelBuffer := None, pendingCompletions := p[..i] + p[i + 1..])
  }

  /** recordButtonTapped: stop when recording, start otherwise. */
  function RecordButtonTapped(s: MainState, env: StartEnv): (r: Option<MainState>)
    requires ValidEnv(env)
    ensures r.Some? ==> r.value.recordingInProgress == !s.recordingInProgress
    ensures s.recordingInProgress ==> r == Some(StopRecording(s))
    ensures !s.recordingInProgress ==> r == StartRecording(s, env)
    ensures !s.recordingInProgress ==> (r.None? <==> !env.createOk)
  {
    if s.recordingInProgress then Some(StopRecording(s)) else StartRecording(s, env)
  }

  /** Whether a dropped sample is appended: it has an image buffer, the
      input is ready (a finished input never is) and the adaptor is there. */
  predicate AppendsFrame(s: MainState, hasImage: bool, ready: bool) {
    hasImage && s.assetInput.Some? && ready && !s.assetInput.value.finished && s.pixelBuffer.Some?
  }

  /** The capture callback for a dropped sample: with an image buffer and a
      ready input the frame is appended through the adaptor at
      frameNumber/25 and the counter goes up by one; otherwise nothing
      changes. It does not look at recordingInProgress. It traps when no
      input was ever made, and when the input is ready but a finish
      completion has released the adaptor. */
  function DroppedFrame(s: MainState, hasImage: bool, ready: bool): (r: Option<MainState>)
    ensures r.None? <==> hasImage && (s.assetInput.None? || (ready && !s.assetInput.value.finished && s.pixelBuffer.None?))
    ensures AppendsFrame(s, hasImage, ready) ==>
              && r.Some? && r.value.frameNumber == s.frameNumber + 1
              && r.value.assetInput.Some?
              && r.value.assetInput.value.appended
                 == s.assetInput.value.appended + [FrameTime(s.frameNumber, FramesPerSecond)]
              && r.value.assetInput.value.(appended := s.assetInput.value.appended) == s.assetInput.value
              && r.value == s.(assetInput := r.value.assetInput, frameNumber := s.frameNumber + 1)
    ensures !AppendsFrame(s, hasImage, ready) && r.Some? ==> r.value == s
    ensures Aligned(s) && r.Some? ==> Aligned(r.value)
  {
    if !hasImage then Some(s)
    else if s.assetInput.None? then None
    else
      var input := s.assetInput.value;
      if ready && !input.finished then
        if s.pixelBuffer.None? then None
        else
          var t := FrameTime(s.frameNumber, FramesPerSecond);
          assert FrameTimes(s.frameNumber + 1, FramesPerSecond) == FrameTimes(s.frameNumber, FramesPerSecond) + [t];
          Some(s.(assetInput := Some(input.(appended := input.appended + [t])), frameNumber := s.frameNumber + 1))
      else Some(s)
  }

  /** A negative (invalid) speed counts as standing still. */
  function ClampedSpeed(speed: real): (v: real)
    ensures v >= 0.0
    ensures speed >= 0.0 ==> v == speed
    ensures speed < 0.0 ==> v == 0.0
  {
    if speed < 0.0 then 0.0 else speed
  }

  /** The auto-start rule on a location fix: the clamped speed in m/s (not
      the km/h figure shown) is above the configured speed, auto-start is
      on, and nothing is being recorded. */
  predicate AutoStartOnSpeed(c: Config.Config, speedMps: real, recording: bool) {
    speedMps > c.autoStartSpeed && c.autoStartEnabled && !recording
  }

  /** What a fix leaves in DriveInfo: the clamped speed converted to km/h, altitude and position. */
  function StoredInfo(loc: Location): (d: DriveInfo)
    ensures d.speed >= 0.0
    ensures d.speed == ClampedSpeed(loc.speed) * 3.6
    ensures d.altitude == loc.altitude && d.latitude == loc.latitude && d.longitude == loc.longitude
  {
    DriveInfo(ClampedSpeed(loc.speed) * 3.6, loc.altitude, loc.latitude, loc.longitude)
  }

  /** locationManager(_:didUpdateLocations:): the last fix is stored and
      may start recording; it never stops one. An empty list of fixes is
      ignored. */
  function LocationUpdate(s: MainState, locations: seq<Location>, env: StartEnv): (r: Option<MainState>)
    requires ValidEnv(env)
    ensures |locations| == 0 ==> r == Some(s)
    ensures |locations| > 0 && r.Some? ==> r.value.driveInfo == StoredInfo(locations[|locations| - 1])
    ensures |locations| > 0 && r.Some? ==>
              (r.value.recordingInProgress && !s.recordingInProgress
               <==> AutoStartOnSpeed(s.config, ClampedSpeed(locations[|locations| - 1].speed), s.recordingInProgress))
    ensures r.None? <==> |locations| > 0 && !env.createOk
                         && AutoStartOnSpeed(s.config, ClampedSpeed(locations[|locations| - 1].speed), s.recordingInProgress)
    ensures s.recordingInProgress && |locations| > 0 ==>
              r == Some(s.(driveInfo := StoredInfo(locations[|locations| - 1])))
    ensures |locations| > 0 && AutoStartOnSpeed(s.config, ClampedSpeed(locations[|locations| - 1].speed), s.recordingInProgress) ==>
              r == StartRecording(s.(driveInfo := StoredInfo(locations[|locations| - 1])), env)
    ensures |locations| > 0 && !AutoStartOnSpeed(s.config, ClampedSpeed(locations[|locations| - 1].speed), s.recordingInProgress) ==>
              r == Some(s.(driveInfo := StoredInfo(locations[|locations| - 1])))
    ensures r.Some? && r.value.recordingInProgress && !s.recordingInProgress ==>
              && r.value.assetWriter.Some? && r.value.assetWriter.value.url == OutputPath(env)
              && r.value.frameNumber == 0 && r.value.pixelBuffer == Some(s.recordings + 1)
  {
    if |locations| == 0 then Some(s)
    else
      var loc := locations[|locations| - 1];
      var speed := ClampedSpeed(loc.speed);
      var s' := s.(driveInfo := StoredInfo(loc));
      if AutoStartOnSpeed(s.config, speed, s.recordingInProgress) then StartRecording(s', env) else Some(s')
  }

  function Abs(x: real): real {
    if x < 0.0 then -x else x
  }

  /** The g-sensor rule: lateral (y) or vertical (z) acceleration beyond the
      sensibility, while nothing is being recorded. */
  predicate GForceStart(c: Config.Config, a: Acceleration, recording: bool) {
    (Abs(a.y) > c.gsensorSensibility || Abs(a.z) > c.gsensorSensibility) && !recording
  }

  /** The accelerometer handler: a missing sample is ignored; otherwise the
      g-sensor rule may start recording. It never stops one. */
  function AccelerometerUpdate(s: MainState, data: Option<Acceleration>, env: StartEnv): (r: Option<MainState>)
    requires ValidEnv(env)
    ensures data.Some? && GForceStart(s.config, data.value, s.recordingInProgress) ==> r == StartRecording(s, env)
    ensures !(data.Some? && GForceStart(s.config, data.value, s.recordingInProgress)) ==> r == Some(s)
    ensures s.recordingInProgress ==> r == Some(s)
  {
    match data
    case None => Some(s)
    case Some(a) => if GForceStart(s.config, a, s.recordingInProgress) then StartRecording(s, env) else Some(s)
  }

  /** The battery rule: stop when recording, unplugged and auto-stop is on. */
  predicate BatteryStop(c: Config.Config, state: BatteryState, recording: bool) {
    recording && state == Unplugged && c.autoStopEnabled
  }

  /** batteryStateChanged: stops recording exactly under the battery rule and never starts one. */
  function BatteryStateChanged(s: MainState, state: BatteryState): (r: MainState)
    ensures BatteryStop(s.config, state, s.recordingInProgress) ==> r == StopRecording(s)
    ensures !BatteryStop(s.config, state, s.recordingInProgress) ==> r == s
    ensures r.recordingInProgress <==> s.recordingInProgress && !BatteryStop(s.config, state, s.recordingInProgress)
  {
    if BatteryStop(s.config, state, s.recordingInProgress) then StopRecording(s) else s
  }

  /** Speed is compared in m/s: at 5 m/s (18 km/h) with a configured 10
      recording does not start, although the stored km/h figure exceeds 10. */
  lemma SpeedRuleUsesMetresPerSecond(s: MainState, env: StartEnv)
    requires ValidEnv(env) && s.config.autoStartSpeed == 10.0 && s.config.autoStartEnabled
    requires !s.recordingInProgress
    ensures var r := LocationUpdate(s, [Location(5.0, 0.0, 0.0, 0.0)], env);
      r.Some? && !r.value.recordingInProgress && r.value.driveInfo.speed == 18.0
  {
  }

  /** The events the screen reacts to. `Completion(i)` is the completion
      of the `i`-th outstanding finishWriting; the completions of several
      stops may run in any order. */
  datatype MainEvent =
    | Tap(env: StartEnv)
    | Dropped(hasImage: bool, ready: bool)
    | LocationEvent(locations: seq<Location>, env: StartEnv)
    | AccelerationEvent(data: Option<Acceleration>, env: StartEnv)
    | BatteryEvent(state: BatteryState)
    | Completion(i: nat)

  predicate ValidEvent(e: MainEvent) {
    match e
    case Tap(env) => ValidEnv(env)
    case LocationEvent(_, env) => ValidEnv(env)
    case AccelerationEvent(_, env) => ValidEnv(env)
    case _ => true
  }

  /** A completion answers an outstanding request; an index naming none is no event. */
  function Step(s: MainState, e: MainEvent): Option<MainState>
    requires ValidEvent(e)
  {
    match e
    case Tap(env) => RecordButtonTapped(s, env)
    case Dropped(hasImage, ready) => DroppedFrame(s, hasImage, ready)
    case LocationEvent(locations, env) => LocationUpdate(s, locations, env)
    case AccelerationEvent(data, env) => AccelerometerUpdate(s, data, env)
    case BatteryEvent(state) => Some(BatteryStateChanged(s, state))
    case Completion(i) => if i < |s.pendingCompletions| then Some(FinishCompleted(s, i)) else Some(s)
  }

  function Run(s: MainState, events: seq<MainEvent>): Option<MainState>
    requires forall i :: 0 <= i < |events| ==> ValidEvent(events[i])
    decreases |events|
  {
    if |events| == 0 then Some(s)
    else match Step(s, events[0])
      case None => None
      case Some(s') => Run(s', events[1..])
  }

  /** In every run, the appended frames carry the times 0/25, 1/25, ...,
      (n-1)/25 with n the frame counter, strictly increasing and gap-free. */
  lemma {:induction false} RunKeepsAligned(s: MainState, events: seq<MainEvent>)
    requires forall i :: 0 <= i < |events| ==> ValidEvent(events[i])
    requires Aligned(s)
    ensures Run(s, events).Some? ==> Aligned(Run(s, events).value)
    decreases |events|
  {
    if |events| > 0 {
      var e := events[0];
      var next := Step(s, e);
      match e {
        case LocationEvent(locations, env) =>
          if |locations| > 0 {
            assert Aligned(s.(driveInfo := StoredInfo(locations[|locations| - 1])));
          }
        case _ =>
      }
      if next.Some? {
        assert Aligned(next.value);
        RunKeepsAligned(next.value, events[1..]);
      }
    }
  }

  /** One event of a run: the rest of the run starts from the state the first event leaves. */
  lemma RunFirst(s: MainState, e: MainEvent, rest: seq<MainEvent>)
    requires ValidEvent(e) && forall i :: 0 <= i < |rest| ==> ValidEvent(rest[i])
    ensures forall i :: 0 <= i < |[e] + rest| ==> ValidEvent(([e] + rest)[i])
    ensures Run(s, [e] + rest) == if Step(s, e).None? then None else Run(Step(s, e).value, rest)
  {
    assert ([e] + rest)[0] == e;
    assert ([e] + rest)[1..] == rest;
  }

  /** The same for the corrected run. */
  lemma RunCheckedFirst(s: MainState, e: MainEvent, rest: seq<MainEvent>)
    requires ValidEvent(e) && forall i :: 0 <= i < |rest| ==> ValidEvent(rest[i])
    ensures forall i :: 0 <= i < |[e] + rest| ==> ValidEvent(([e] + rest)[i])
    ensures RunChecked(s, [e] + rest) == if StepChecked(s, e).None? then None else RunChecked(StepChecked(s, e).value, rest)
  {
    assert ([e] + rest)[0] == e;
    assert ([e] + rest)[1..] == rest;
  }

  /** After a stop, a dropped sample is not appended, before or after the
      stop's completion: finishWriting finished the input. */
  lemma NoFramesAfterStop(config: Config.Config, env: StartEnv)
    requires ValidEnv(env) && env.createOk
    ensures var r := Run(Init(config), [Tap(env), Tap(env), Dropped(true, true), Completion(0), Dropped(true, true)]);
      r.Some? && r.value.frameNumber == 0 && !r.value.recordingInProgress && r.value.pixelBuffer.None?
  {
    var s1 := StartRecording(Init(config), env).value;
    var s2 := StopRecording(s1);
    var s3 := FinishCompleted(s2, 0);
    assert Step(Init(config), Tap(env)) == Some(s1);
    assert Step(s1, Tap(env)) == Some(s2);
    assert Step(s2, Dropped(true, true)) == Some(s2);
    assert Step(s2, Completion(0)) == Some(s3);
    assert Step(s3, Dropped(true, true)) == Some(s3);
    assert s3.frameNumber == 0 && !s3.recordingInProgress && s3.pixelBuffer.None?;
    RunFirst(s3, Dropped(true, true), []);
    RunFirst(s2, Completion(0), [Dropped(true, true)]);
    RunFirst(s2, Dropped(true, true), [Completion(0), Dropped(true, true)]);
    RunFirst(s1, Tap(env), [Dropped(true, true), Completion(0), Dropped(true, true)]);
    RunFirst(Init(config), Tap(env), [Tap(env), Dropped(true, true), Completion(0), Dropped(true, true)]);
    assert [Tap(env)] + [Tap(env), Dropped(true, true), Completion(0), Dropped(true, true)]
        == [Tap(env), Tap(env), Dropped(true, true), Completion(0), Dropped(true, true)];
  }

  /** The completion of an earlier stop releases the adaptor of a recording
      started after it: start, stop, start again, the first completion
      runs, and the next ready frame traps on the nil adaptor. */
  lemma OldCompletionReleasesNewAdaptor(config: Config.Config, env: StartEnv)
    requires ValidEnv(env) && env.createOk
    ensures Run(Init(config), [Tap(env), Tap(env), Tap(env), Completion(0), Dropped(true, true)]) == None
  {
    var s1 := StartRecording(Init(config), env).value;
    var s2 := StopRecording(s1);
    var s3 := StartRecording(s2, env).value;
    var s4 := FinishCompleted(s3, 0);
    assert Step(Init(config), Tap(env)) == Some(s1);
    assert Step(s1, Tap(env)) == Some(s2);
    assert Step(s2, Tap(env)) == Some(s3);
    assert Step(s3, Completion(0)) == Some(s4);
    assert Step(s4, Dropped(true, true)) == None;
    RunFirst(s4, Dropped(true, true), []);
    RunFirst(s3, Completion(0), [Dropped(true, true)]);
    RunFirst(s2, Tap(env), [Completion(0), Dropped(true, true)]);
    RunFirst(s1, Tap(env), [Tap(env), Completion(0), Dropped(true, true)]);
    RunFirst(Init(config), Tap(env), [Tap(env), Tap(env), Completion(0), Dropped(true, true)]);
    assert [Tap(env)] + [Tap(env), Tap(env), Completion(0), Dropped(true, true)]
        == [Tap(env), Tap(env), Tap(env), Completion(0), Dropped(true, true)];
  }

  /** The corrected completion: it releases the adaptor only when the
      adaptor still belongs to the recording whose stop it answers. */
  function FinishCompletedChecked(s: MainState, i: nat): (r: MainState)
    requires i < |s.pendingCompletions|
    ensures r.pixelBuffer.None? <==> s.pixelBuffer.None? || s.pixelBuffer == Some(s.pendingCompletions[i])
    ensures r.pixelBuffer.Some? ==> r.pixelBuffer == s.pixelBuffer
    ensures multiset(r.pendingCompletions) + multiset{s.pendingCompletions[i]} == multiset(s.pendingCompletions)
    ensures r.(pixelBuffer := s.pixelBuffer, pendingCompletions := s.pendingCompletions) == s
  {
    var p := s.pendingCompletions;
    assert p == p[..i] + [p[i]] + p[i + 1..];
    var adaptor := if s.pixelBuffer == Some(p[i]) then None else s.pixelBuffer;
    s.(pixelBuffer := adaptor, pendingCompletions := p[..i] + p[i + 1..])
  }

  function StepChecked(s: MainState, e: MainEvent): Option<MainState>
    requires ValidEvent(e)
  {
    match e
    case Completion(i) => if i < |s.pendingCompletions| then Some(FinishCompletedChecked(s, i)) else Some(s)
    case _ => Step(s, e)
  }

  function RunChecked(s: MainState, events: seq<MainEvent>): Option<MainState>
    requires forall i :: 0 <= i < |events| ==> ValidEvent(events[i])
    decreases |events|
  {
    if |events| == 0 then Some(s)
    else match StepChecked(s, events[0])
      case None => None
      case Some(s') => RunChecked(s', events[1..])
  }

  /** The adaptor invariant: an input exists only with a writer; while the
      input is open the adaptor is the current recording's and no
      outstanding completion answers the current recording; no completion
      names a recording not yet started. */
  ghost predicate AdaptorInv(s: MainState) {
    && (s.assetInput.Some? ==> s.assetWriter.Some?)
    && (s.assetInput.Some? && !s.assetInput.value.finished ==>
          && s.pixelBuffer == Some(s.recordings)
          && forall j :: 0 <= j < |s.pendingCompletions| ==> s.pendingCompletions[j] < s.recordings)
    && forall j :: 0 <= j < |s.pendingCompletions| ==> s.pendingCompletions[j] <= s.recordings
  }

  lemma StopKeepsAdaptorInv(s: MainState)
    requires AdaptorInv(s)
    ensures AdaptorInv(StopRecording(s))
  {
    var r := StopRecording(s);
    if s.assetWriter.Some? {
      forall j | 0 <= j < |r.pendingCompletions|
        ensures r.pendingCompletions[j] <= r.recordings
      {
        if j < |s.pendingCompletions| {
          assert r.pendingCompletions[j] == s.pendingCompletions[j];
        }
      }
    }
  }

  lemma StartKeepsAdaptorInv(s: MainState, env: StartEnv)
    requires ValidEnv(env) && AdaptorInv(s)
    ensures StartRecording(s, env).Some? ==> AdaptorInv(StartRecording(s, env).value)
  {
  }

  lemma CompletionKeepsAdaptorInv(s: MainState, i: nat)
    requires AdaptorInv(s) && i < |s.pendingCompletions|
    ensures AdaptorInv(FinishCompletedChecked(s, i))
  {
    var r := FinishCompletedChecked(s, i);
    forall j | 0 <= j < |r.pendingCompletions|
      ensures r.pendingCompletions[j] in multiset(s.pendingCompletions)
    {
      assert r.pendingCompletions[j] in multiset(r.pendingCompletions);
    }
  }

  lemma StepCheckedKeepsAdaptorInv(s: MainState, e: MainEvent)
    requires ValidEvent(e) && AdaptorInv(s)
    ensures StepChecked(s, e).Some? ==> AdaptorInv(StepChecked(s, e).value)
  {
    match e {
      case Tap(env) =>
        StopKeepsAdaptorInv(s);
        StartKeepsAdaptorInv(s, env);
      case Dropped(_, _) =>
      case LocationEvent(locations, env) =>
        if |locations| > 0 {
          StartKeepsAdaptorInv(s.(driveInfo := StoredInfo(locations[|locations| - 1])), env);
        }
      case AccelerationEvent(_, env) =>
        StartKeepsAdaptorInv(s, env);
      case BatteryEvent(_) =>
        StopKeepsAdaptorInv(s);
      case Completion(i) =>
        if i < |s.pendingCompletions| {
          CompletionKeepsAdaptorInv(s, i);
        }
    }
  }

  /** With the corrected completion, a dropped sample traps only before the
      first recording ever made an input: an open input always has its
      adaptor. */
  lemma {:induction false} RunCheckedDropNeverTrapsOnInput(s: MainState, events: seq<MainEvent>, hasImage: bool, ready: bool)
    requires forall i :: 0 <= i < |events| ==> ValidEvent(events[i])
    requires AdaptorInv(s)
    ensures var r := RunChecked(s, events);
      r.Some? && r.value.assetInput.Some? ==> DroppedFrame(r.value, hasImage, ready).Some?
    decreases |events|
  {
    if |events| == 0 {
    } else {
      StepCheckedKeepsAdaptorInv(s, events[0]);
      var next := StepChecked(s, events[0]);
      if next.Some? {
        RunCheckedDropNeverTrapsOnInput(next.value, events[1..], hasImage, ready);
      }
    }
  }

  /** The corrected run from a new screen, on the scenario that traps as
      written: the frame is appended. */
  lemma CheckedScenarioAppends(config: Config.Config, env: StartEnv)
    requires ValidEnv(env) && env.createOk
    ensures var r := RunChecked(Init(config), [Tap(env), Tap(env), Tap(env), Completion(0), Dropped(true, true)]);
      r.Some? && r.value.frameNumber == 1 && r.value.recordingInProgress
  {
    var s1 := StartRecording(Init(config), env).value;
    var s2 := StopRecording(s1);
    var s3 := StartRecording(s2, env).value;
    var s4 := FinishCompletedChecked(s3, 0);
    assert s4.pixelBuffer == Some(2);
    assert StepChecked(Init(config), Tap(env)) == Some(s1);
    assert StepChecked(s1, Tap(env)) == Some(s2);
    assert StepChecked(s2, Tap(env)) == Some(s3);
    assert StepChecked(s3, Completion(0)) == Some(s4);
    var s5 := DroppedFrame(s4, true, true).value;
    assert StepChecked(s4, Dropped(true, true)) == Some(s5);
    assert s5.frameNumber == 1 && s5.recordingInProgress;
    RunCheckedFirst(s4, Dropped(true, true), []);
    RunCheckedFirst(s3, Completion(0), [Dropped(true, true)]);
    RunCheckedFirst(s2, Tap(env), [Completion(0), Dropped(true, true)]);
    RunCheckedFirst(s1, Tap(env), [Tap(env), Completion(0), Dropped(true, true)]);
    RunCheckedFirst(Init(config), Tap(env), [Tap(env), Tap(env), Completion(0), Dropped(true, true)]);
    assert [Tap(env)] + [Tap(env), Tap(env), Completion(0), Dropped(true, true)]
        == [Tap(env), Tap(env), Tap(env), Completion(0), Dropped(true, true)];
  }

  /** A recording's file is listed by the playlist, and its row shows the
      start date in the timestamp pattern. */
  lemma RecordingAppearsInPlaylist(env: StartEnv)
    requires ValidEnv(env) && env.now.year < 10000
    ensures PlaylistViewController.IsVideoFile(OutputPath(env))
    ensures |LastPathComponent(OutputPath(env))| >= 5
    ensures PlaylistCell.TimestampFromURL(OutputPath(env)) == FilenameUtil.TimestampFromDate(env.now)
  {
    OutputPathName(env);
    var name := FilenameUtil.FilenameFromDate(env.now) + ".mp4";
    assert name[|name| - 4..] == ".mp4";
    var dir := env.home + "/Documents";
    PlaylistCell.TimestampOfRecordedFile(dir, env.now);
  }
}
