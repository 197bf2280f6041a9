/**
 DriveRecorder: the later revision's recorder facade. It runs the capture
 session, starts and stops recording through its video writer, validates
 the configured frame rate against the camera's supported range, and
 records whether the app may use the photo library. The writer's start
 result and the answers of authorization requests are inputs. What a
 call does beyond state is listed as effects, in order.
 */
module DriveRecorder {
  import opened Wrappers
  import opened MediaTime
  import Config

  /** Constants.DefaultFrameRate. */
  const DefaultFrameRate: int := 30

  /** AVAuthorizationStatus and PHAuthorizationStatus share these four cases. */
  datatype AuthorizationStatus = NotDetermined | Restricted | Denied | Authorized

  /** checkCameraAuthorization: the value handed to the completion. When
      access was never asked for, it is the answer of the access request. */
  function CameraAuthorization(status: AuthorizationStatus, accessGranted: bool): (r: bool)
    ensures status == Authorized ==> r
    ensures status == Denied || status == Restricted ==> !r
    ensures status == NotDetermined ==> r == accessGranted
  {
    match status
    case Authorized => true
    case NotDetermined => accessGranted
    case Denied => false
    case Restricted => false
  }

  /** checkPhotoLibraryAuthorization: the value handed to the completion.
      When access was never asked for, it is whether the status returned by
      the request is `authorized`. */
  function PhotoLibraryAuthorization(status: AuthorizationStatus, requested: AuthorizationStatus): (r: bool)
    ensures r <==> status == Authorized || (status == NotDetermined && requested == Authorized)
  {
    match status
    case Authorized => true
    case NotDetermined => requested == Authorized
    case Denied => false
    case Restricted => false
  }

  /** `authorizationPending` is true while an access request asked in
      init has not answered yet; `writerSet` tells whether setup has
      created the video writer (until then it is nil). */
  datatype Recorder = Recorder(
    recordingInProgress: bool,
    sessionRunning: bool,
    sessionPreset: Config.Quality,
    authorized: bool,
    authorizationPending: bool,
    writerSet: bool)

  /** The answers the two authorization checks in init receive. */
  datatype AuthorizationAnswers = AuthorizationAnswers(
    cameraStatus: AuthorizationStatus,
    cameraGranted: bool,
    photoStatus: AuthorizationStatus,
    photoRequested: AuthorizationStatus)

  /** Both checks call their completions directly, before init returns,
      exactly when neither status is notDetermined; otherwise a completion
      runs later, from an access request. */
  predicate AnswersAtOnce(a: AuthorizationAnswers) {
    a.cameraStatus != NotDetermined && a.photoStatus != NotDetermined
  }

  /** The value the chained checks leave in `authorized`. The photo-library
      check runs inside the camera check's completion, and its own
      completion parameter shadows the camera result, so the camera answer
      never reaches `authorized`. */
  function ChainedAuthorization(a: AuthorizationAnswers): (r: bool)
    ensures r <==> a.photoStatus == Authorized || (a.photoStatus == NotDetermined && a.photoRequested == Authorized)
  {
    PhotoLibraryAuthorization(a.photoStatus, a.photoRequested)
  }

  /** init(): a capture session with the configured preset, not running,
      not recording. `authorized` holds the chained answer when both
      completions ran before init returned; otherwise it is still false and
      an answer is pending. */
  function Init(preset: Config.Quality, answers: AuthorizationAnswers): (r: Recorder)
    ensures !r.recordingInProgress && !r.sessionRunning && r.sessionPreset == preset && !r.writerSet
    ensures r.authorizationPending <==> !AnswersAtOnce(answers)
    ensures r.authorized <==> AnswersAtOnce(answers) && answers.photoStatus == Authorized
  {
    if AnswersAtOnce(answers) then Recorder(false, false, preset, ChainedAuthorization(answers), false, false)
    else Recorder(false, false, preset, false, true, false)
  }

  /** The late completion of an access request asked in init: it sets
      `authorized` to the chained answer; nothing else changes. */
  function AuthorizationAnswered(r: Recorder, answers: AuthorizationAnswers): (o: Recorder)
    requires r.authorizationPending
    ensures !o.authorizationPending
    ensures o.authorized <==> answers.photoStatus == Authorized
                              || (answers.photoStatus == NotDetermined && answers.photoRequested == Authorized)
    ensures o.(authorized := r.authorized, authorizationPending := true) == r
  {
    r.(authorized := ChainedAuthorization(answers), authorizationPending := false)
  }

  /** Once every answer has come in, `authorized` is the photo-library
      answer alone: a denied camera with an authorized photo library still
      yields true. */
  function Settled(preset: Config.Quality, answers: AuthorizationAnswers): Recorder {
    var r := Init(preset, answers);
    if r.authorizationPending then AuthorizationAnswered(r, answers) else r
  }

  lemma AuthorizedIgnoresCamera(preset: Config.Quality, a: AuthorizationAnswers, b: AuthorizationAnswers)
    requires a.photoStatus == b.photoStatus && a.photoRequested == b.photoRequested
    ensures Settled(preset, a).authorized == Settled(preset, b).authorized
    ensures Settled(preset, a).authorized <==> PhotoLibraryAuthorization(a.photoStatus, a.photoRequested)
  {
  }

  /** Until a request asked in init answers, the recorder is not authorized. */
  lemma PendingNotAuthorized(preset: Config.Quality, a: AuthorizationAnswers)
    requires a.cameraStatus == NotDetermined
    ensures !Init(preset, a).authorized && Init(preset, a).authorizationPending
  {
  }

  datatype Effect = SessionStarted | SessionStopped | WriterStarted | WriterStopped | CompletionCalled | ConfigSaved

  datatype Outcome = Outcome(recorder: Recorder, effects: seq<Effect>)

  /** startRunning: starts the session only when it is not running. */
  function StartRunning(r: Recorder): (o: Outcome)
    ensures o.recorder.sessionRunning
    ensures o.recorder.(sessionRunning := r.sessionRunning) == r
    ensures o.effects == (if r.sessionRunning then [] else [SessionStarted])
  {
    if !r.sessionRunning then Outcome(r.(sessionRunning := true), [SessionStarted]) else Outcome(r, [])
  }

  /** stopRunning: stops the session only when it is running. */
  function StopRunning(r: Recorder): (o: Outcome)
    ensures !o.recorder.sessionRunning
    ensures o.recorder.(sessionRunning := r.sessionRunning) == r
    ensures o.effects == (if r.sessionRunning then [SessionStopped] else [])
  {
    if r.sessionRunning then Outcome(r.(sessionRunning := false), [SessionStopped]) else Outcome(r, [])
  }

  /** Starting or stopping twice is the same as once, and the second call has no effect. */
  lemma RunningIdempotent(r: Recorder)
    ensures StartRunning(StartRunning(r).recorder) == Outcome(StartRunning(r).recorder, [])
    ensures StopRunning(StopRunning(r).recorder) == Outcome(StopRunning(r).recorder, [])
  {
  }

  /** The writer-related part of setup(inView:): setupWriter creates the
      video writer on the capture session. The preview layer and the
      device configuration are not modelled. */
  function Setup(r: Recorder): (o: Recorder)
    ensures o.writerSet
    ensures o.(writerSet := r.writerSet) == r
  {
    r.(writerSet := true)
  }

  /** startRecording: recording is in progress exactly when the writer
      started; the completion is called afterwards, once. Before setup the
      writer is nil and the call traps. Focusing the camera first is device
      configuration and not modelled. */
  function StartRecording(r: Recorder, writerStarted: bool): (o: Option<Outcome>)
    ensures o.None? <==> !r.writerSet
    ensures o.Some? ==> o.value.recorder.recordingInProgress == writerStarted
    ensures o.Some? ==> o.value.recorder.(recordingInProgress := r.recordingInProgress) == r
    ensures o.Some? ==> o.value.effects == [WriterStarted, CompletionCalled]
  {
    if !r.writerSet then None
    else Some(Outcome(r.(recordingInProgress := writerStarted), [WriterStarted, CompletionCalled]))
  }

  /** stopRecording: the writer is stopped, recording is over, and the
      completion is called afterwards, once. Before setup the writer is nil
      and the call traps; it also traps when the writer's own stop traps
      (`writerStopOk` false), as VideoWriter.Stop does on a stop after a
      completed finish. */
  function StopRecording(r: Recorder, writerStopOk: bool): (o: Option<Outcome>)
    ensures o.None? <==> !r.writerSet || !writerStopOk
    ensures o.Some? ==> !o.value.recorder.recordingInProgress
    ensures o.Some? ==> o.value.recorder.(recordingInProgress := r.recordingInProgress) == r
    ensures o.Some? ==> o.value.effects == [WriterStopped, CompletionCalled]
  {
    if !r.writerSet || !writerStopOk then None
    else Some(Outcome(r.(recordingInProgress := false), [WriterStopped, CompletionCalled]))
  }

  /** A new recorder cannot record: both recording calls trap until setup
      has run, whatever the writer does. After setup a start never traps,
      and a stop traps exactly when the writer's own stop does. */
  lemma RecordingNeedsSetup(preset: Config.Quality, answers: AuthorizationAnswers, ok: bool, stopOk: bool)
    ensures StartRecording(Init(preset, answers), ok).None? && StopRecording(Init(preset, answers), stopOk).None?
    ensures StartRecording(Setup(Init(preset, answers)), ok).Some?
    ensures StopRecording(Setup(Init(preset, answers)), stopOk).Some? <==> stopOk
  {
  }

  /** A supported frame-rate range of the camera's active format (Float64 bounds). */
  datatype FrameRateRange = FrameRateRange(minFrameRate: real, maxFrameRate: real)

  /** Int32(x) for a Float64: rounds toward zero; the source traps outside Int32. */
  function Int32Of(x: real): (n: int)
    requires -2147483649.0 < x < 2147483648.0
    ensures -0x8000_0000 <= n < 0x8000_0000
    ensures x >= 0.0 ==> n as real <= x < n as real + 1.0
    ensures x < 0.0 ==> n as real - 1.0 < x <= n as real
  {
    if x >= 0.0 then x.Floor else -((-x).Floor)
  }

  predicate Int32Convertible(ranges: seq<FrameRateRange>) {
    |ranges| > 0 ==>
      && -2147483649.0 < ranges[0].minFrameRate < 2147483648.0
      && -2147483649.0 < ranges[0].maxFrameRate < 2147483648.0
  }

  /** The configured frame rate against the first supported range, after truncation. */
  predicate OutOfRange(frameRate: int, ranges: seq<FrameRateRange>)
    requires Int32Convertible(ranges)
  {
    |ranges| > 0 && (frameRate < Int32Of(ranges[0].minFrameRate) || frameRate > Int32Of(ranges[0].maxFrameRate))
  }

  /** The frame rate the camera is configured with, whether the config was
      saved, the minimum frame duration set on the device (none when the
      device could not be locked), and whether the completion received an
      error. */
  datatype FrameRateChoice = FrameRateChoice(frameRate: int, saved: bool, minFrameDuration: Option<CMTime>, failed: bool)

  /** The frame-rate part of configureCamera. When the device cannot be
      locked for configuration, nothing is validated, saved or set and the
      completion gets the error. Otherwise a configured rate outside the
      first supported range (bounds truncated to Int32) is replaced by the
      default and the config saved; an in-range rate, or a device listing no
      range, is kept. The minimum frame duration is one over the resulting
      rate. */
  function ConfigureFrameRate(frameRate: int, ranges: seq<FrameRateRange>, locked: bool): (c: FrameRateChoice)
    requires locked ==> Int32Convertible(ranges)
    ensures c.failed <==> !locked
    ensures !locked ==> c.frameRate == frameRate && !c.saved && c.minFrameDuration.None?
    ensures locked ==> (c.saved <==> OutOfRange(frameRate, ranges))
    ensures locked ==> c.frameRate == (if c.saved then DefaultFrameRate else frameRate)
    ensures locked ==> c.minFrameDuration == Some(CMTime(1, c.frameRate))
    ensures locked && !c.saved && |ranges| > 0 ==>
              Int32Of(ranges[0].minFrameRate) <= c.frameRate <= Int32Of(ranges[0].maxFrameRate)
  {
    if !locked then
      FrameRateChoice(frameRate, false, None, true)
    else if |ranges| > 0 && (frameRate < Int32Of(ranges[0].minFrameRate) || frameRate > Int32Of(ranges[0].maxFrameRate)) then
      FrameRateChoice(DefaultFrameRate, true, Some(CMTime(1, DefaultFrameRate)), false)
    else
      FrameRateChoice(frameRate, false, Some(CMTime(1, frameRate)), false)
  }

  /** Validation settles: feeding the result back in (with the same ranges)
      keeps it when the default lies in the range. */
  lemma ConfigureFrameRateSettles(frameRate: int, ranges: seq<FrameRateRange>)
    requires Int32Convertible(ranges)
    requires |ranges| > 0 ==> !OutOfRange(DefaultFrameRate, ranges)
    ensures var c := ConfigureFrameRate(frameRate, ranges, true);
      ConfigureFrameRate(c.frameRate, ranges, true).frameRate == c.frameRate
      && !ConfigureFrameRate(c.frameRate, ranges, true).saved
  {
  }

  /** The replacement is not checked against the range: a camera limited
      to 1-24 fps gets the default 30 for a configured 60. */
  lemma DefaultNotRangeChecked()
    ensures ConfigureFrameRate(60, [FrameRateRange(1.0, 24.0)], true).frameRate == 30
    ensures ConfigureFrameRate(60, [FrameRateRange(1.0, 24.0)], true).saved
  {
  }

  /** The record-keeping part of each call as a sequence of events. */
  datatype Call = StartRunningCall | StopRunningCall | StartRecordingCall(writerStarted: bool) | StopRecordingCall(writerStopOk: bool)

  function Apply(r: Recorder, c: Call): Option<Outcome> {
    match c
    case StartRunningCall => Some(StartRunning(r))
    case StopRunningCall => Some(StopRunning(r))
    case StartRecordingCall(ok) => StartRecording(r, ok)
    case StopRecordingCall(ok) => StopRecording(r, ok)
  }

  /** Every call that does not trap ends with at most one completion, and
      the recording calls always end with one. */
  lemma CompletionLast(r: Recorder, c: Call)
    ensures Apply(r, c).Some? ==> var e := Apply(r, c).value.effects;
      (c.StartRecordingCall? || c.StopRecordingCall?) <==> (|e| > 0 && e[|e| - 1] == CompletionCalled)
  {
  }
}
