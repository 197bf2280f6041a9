/**
 VideoWriter: the recorder's writer state machine. The capture callbacks
 run on the main queue; start and stop are called from the app, and the
 completion of `finishWriting` runs wherever AVFoundation calls it. The
 model treats each of them as one atomic event, so the writer is a state
 record with one pure step function per event. Readiness of a writer input, presence of an image
 buffer in a sample and success of creating the file writer are inputs of
 the events; encoding itself is not modelled. A runtime trap (use of a nil
 implicitly unwrapped optional) is a `None` result.
 */
module VideoWriter {
  import opened Wrappers
  import opened MediaTime
  import Config

  /** A frame rate as an Int32 timescale. */
  type FrameRate = r: int | 0 < r < 0x8000_0000 witness 1

  /** The part of Config.default the writer reads. */
  datatype WriterConfig = WriterConfig(recordAudio: bool, videoQuality: Config.Quality, frameRate: FrameRate)

  datatype FrameSize = FrameSize(width: nat, height: nat)

  /** The encoded frame size for a capture quality. */
  function FrameSizeFor(q: Config.Quality): (s: FrameSize)
    ensures q == Config.High <==> s.width == 1920
    ensures q == Config.Medium <==> s.width == 1280
    ensures q == Config.Low <==> s.width == 640
    ensures s.width * 9 == s.height * 16 <==> q != Config.Low
    ensures q == Config.Low ==> s.width * 3 == s.height * 4
  {
    match q
    case High => FrameSize(1920, 1080)
    case Medium => FrameSize(1280, 720)
    case Low => FrameSize(640, 480)
  }

  /** Output settings of a track added to the file writer: H.264 video of a
      given size, or AAC audio. */
  datatype TrackSettings = VideoTrack(size: FrameSize) | AudioTrack(channels: nat, sampleRate: nat, bitRate: nat)

  const AudioSettings: TrackSettings := AudioTrack(1, 44100, 128000)

  /** The video writer input with its pixel-buffer adaptor, and the
      presentation times of the frames appended through it. */
  datatype VideoInput = VideoInput(size: FrameSize, finished: bool, appended: seq<CMTime>)

  /** The audio writer input and the number of samples appended to it. */
  datatype AudioInput = AudioInput(finished: bool, appended: nat)

  /** The AVAssetWriter of one output file. */
  datatype AssetWriter = AssetWriter(
    url: string,
    tracks: seq<TrackSettings>,
    sessionStart: CMTime,
    sessionEnd: Option<CMTime>,
    finishRequests: nat)

  datatype Writer = Writer(
    config: WriterConfig,
    videoOutput: bool,
    audioOutput: bool,
    assetWriter: Option<AssetWriter>,
    videoInput: Option<VideoInput>,
    audioInput: Option<AudioInput>,
    frameNumber: nat,
    recordingInProgress: bool,
    pendingCompletions: nat)

  /** init(session:): the video output is attached, the audio output only
      when audio is recorded; nothing is being written. */
  function Init(config: WriterConfig): (w: Writer)
    ensures w.videoOutput && (w.audioOutput <==> config.recordAudio)
    ensures !w.recordingInProgress && w.assetWriter.None? && w.frameNumber == 0
    ensures w.config == config && w.videoInput.None? && w.audioInput.None? && w.pendingCompletions == 0
  {
    Writer(config, true, config.recordAudio, None, None, None, 0, false, 0)
  }

  /** reset(): recording is cleared and the capture outputs are re-created,
      the audio output present exactly when audio is recorded. Writer,
      inputs and frame counter are left as they are. */
  function Reset(w: Writer): (r: Writer)
    ensures !r.recordingInProgress
    ensures r.videoOutput && (r.audioOutput <==> w.config.recordAudio)
    ensures r.assetWriter == w.assetWriter && r.videoInput == w.videoInput && r.audioInput == w.audioInput
    ensures r.frameNumber == w.frameNumber && r.pendingCompletions == w.pendingCompletions
    ensures r.config == w.config
  {
    w.(recordingInProgress := false, videoOutput := true, audioOutput := w.config.recordAudio)
  }

  datatype StartResult = StartResult(writer: Writer, started: bool)

  /** start(_:): a fresh video input is made and the frame counter reset
      before the file writer is created. When creating it throws
      (`createOk` false) start reports false and nothing else changes;
      otherwise the writer gets the video track and, only when audio is
      recorded, an audio track, its session starts at time zero, and
      recording is in progress. */
  function Start(w: Writer, url: string, createOk: bool): (r: StartResult)
    ensures r.started == createOk
    ensures r.writer.frameNumber == 0
    ensures r.writer.videoInput == Some(VideoInput(FrameSizeFor(w.config.videoQuality), false, []))
    ensures createOk ==> r.writer.recordingInProgress && r.writer.assetWriter.Some?
    ensures createOk ==> var aw := r.writer.assetWriter.value;
      && aw.url == url && aw.sessionStart == Zero && aw.sessionEnd.None?
      && |aw.tracks| >= 1 && aw.tracks[0] == VideoTrack(FrameSizeFor(w.config.videoQuality))
      && |aw.tracks| == (if w.config.recordAudio then 2 else 1)
      && (w.config.recordAudio ==> aw.tracks[1] == AudioSettings)
      && aw.finishRequests == 0
    ensures createOk && w.config.recordAudio ==> r.writer.audioInput == Some(AudioInput(false, 0))
    ensures createOk && !w.config.recordAudio ==> r.writer.audioInput == w.audioInput
    ensures createOk ==>
              r.writer.(videoInput := w.videoInput, frameNumber := w.frameNumber, assetWriter := w.assetWriter,
                        audioInput := w.audioInput, recordingInProgress := w.recordingInProgress) == w
    ensures !createOk ==> r.writer == w.(videoInput := r.writer.videoInput, frameNumber := 0)
    ensures r.writer.config == w.config && r.writer.pendingCompletions == w.pendingCompletions
  {
    var size := FrameSizeFor(w.config.videoQuality);
    var w' := w.(videoInput := Some(VideoInput(size, false, [])), frameNumber := 0);
    if createOk then
      var tracks := [VideoTrack(size)] + (if w.config.recordAudio then [AudioSettings] else []);
      var audio := if w.config.recordAudio then Some(AudioInput(false, 0)) else w.audioInput;
      StartResult(w'.(assetWriter := Some(AssetWriter(url, tracks, Zero, None, 0)), audioInput := audio,
                      recordingInProgress := true), true)
    else
      StartResult(w', false)
  }

  /** Whether a delivered video sample is appended: recording is in
      progress, the input is ready (an input marked finished never is) and
      the sample carries an image buffer. */
  predicate AppendsVideo(w: Writer, ready: bool, hasImage: bool) {
    w.recordingInProgress && w.videoInput.Some? && ready && !w.videoInput.value.finished && hasImage
  }

  /** captureOutput for a video sample: appended at frameNumber/frameRate,
      after which the counter goes up by one; otherwise dropped. */
  function VideoSample(w: Writer, ready: bool, hasImage: bool): (r: Option<Writer>)
    ensures r.None? <==> w.recordingInProgress && w.videoInput.None?
    ensures AppendsVideo(w, ready, hasImage) ==>
              && r.Some? && r.value.frameNumber == w.frameNumber + 1
              && r.value.videoInput.Some?
              && r.value.videoInput.value.appended
                 == w.videoInput.value.appended + [FrameTime(w.frameNumber, w.config.frameRate)]
              && r.value.videoInput.value.(appended := w.videoInput.value.appended) == w.videoInput.value
              && r.value.(videoInput := w.videoInput, frameNumber := w.frameNumber) == w
    ensures !AppendsVideo(w, ready, hasImage) && r.Some? ==> r.value == w
    ensures r.Some? ==> r.value.recordingInProgress == w.recordingInProgress && r.value.assetWriter == w.assetWriter
  {
    if !w.recordingInProgress then Some(w)
    else if w.videoInput.None? then None
    else
      var input := w.videoInput.value;
      if ready && !input.finished then
        if !hasImage then Some(w)
        else
          var t := FrameTime(w.frameNumber, w.config.frameRate);
          Some(w.(videoInput := Some(input.(appended := input.appended + [t])), frameNumber := w.frameNumber + 1))
      else Some(w)
  }

  /** captureOutput for an audio sample. Audio samples come only from the
      audio output; one is appended when recording and the audio input is
      ready. The video side and the frame counter never change. */
  predicate AppendsAudio(w: Writer, ready: bool) {
    w.audioOutput && w.recordingInProgress && w.audioInput.Some? && ready && !w.audioInput.value.finished
  }

  function AudioSample(w: Writer, ready: bool): (r: Option<Writer>)
    ensures r.None? <==> w.audioOutput && w.recordingInProgress && w.audioInput.None?
    ensures AppendsAudio(w, ready) ==>
              && r.Some? && r.value.audioInput.Some?
              && r.value.audioInput.value.appended == w.audioInput.value.appended + 1
              && !r.value.audioInput.value.finished
              && r.value.(audioInput := w.audioInput) == w
    ensures !AppendsAudio(w, ready) && r.Some? ==> r.value == w
    ensures r.Some? ==> r.value.frameNumber == w.frameNumber && r.value.videoInput == w.videoInput
    ensures r.Some? ==> r.value.recordingInProgress == w.recordingInProgress && r.value.assetWriter == w.assetWriter
    ensures !w.recordingInProgress ==> r == Some(w)
    ensures r.Some? && r.value != w ==>
              && r.value.audioInput.Some? && w.audioInput.Some?
              && r.value.audioInput.value.appended == w.audioInput.value.appended + 1
  {
    if !w.audioOutput || !w.recordingInProgress then Some(w)
    else if w.audioInput.None? then None
    else
      var input := w.audioInput.value;
      if ready && !input.finished then Some(w.(audioInput := Some(input.(appended := input.appended + 1))))
      else Some(w)
  }

  /** stop(), as written. Without a file writer it does nothing. Otherwise
      the inputs are marked finished, the session ends at
      frameNumber/frameRate and finishWriting is requested; recording stays
      in progress until its completion runs. The video input is
      dereferenced unconditionally, so it traps when the input has already
      been released by an earlier completion. */
  function Stop(w: Writer): (r: Option<Writer>)
    ensures w.assetWriter.None? ==> r == Some(w)
    ensures r.None? <==> w.assetWriter.Some? && w.videoInput.None?
    ensures r.Some? && w.assetWriter.Some? ==> StopsWriter(w, r.value)
  {
    if w.assetWriter.None? then Some(w)
    else if w.videoInput.None? then None
    else Some(FinishInputs(w))
  }

  /** The effect of a stop on a writer that has a video input. */
  function FinishInputs(w: Writer): (r: Writer)
    requires w.assetWriter.Some? && w.videoInput.Some?
    ensures StopsWriter(w, r)
  {
    var aw := w.assetWriter.value;
    var audio := if w.audioInput.Some? then Some(w.audioInput.value.(finished := true)) else None;
    w.(videoInput := Some(w.videoInput.value.(finished := true)),
       audioInput := audio,
       assetWriter := Some(aw.(sessionEnd := Some(FrameTime(w.frameNumber, w.config.frameRate)),
                               finishRequests := aw.finishRequests + 1)),
       pendingCompletions := w.pendingCompletions + 1)
  }

  /** `r` is `w` stopped: inputs finished, session ended at the current
      frame, one more finishWriting outstanding, recording untouched. */
  ghost predicate StopsWriter(w: Writer, r: Writer) {
    && w.assetWriter.Some? && w.videoInput.Some?
    && r.videoInput == Some(w.videoInput.value.(finished := true))
    && (w.audioInput.Some? <==> r.audioInput.Some?)
    && (r.audioInput.Some? ==> r.audioInput == Some(w.audioInput.value.(finished := true)))
    && r.assetWriter.Some? && r.assetWriter.value.url == w.assetWriter.value.url
    && r.assetWriter.value.sessionEnd == Some(FrameTime(w.frameNumber, w.config.frameRate))
    && r.assetWriter.value.finishRequests == w.assetWriter.value.finishRequests + 1
    && r.assetWriter.value.(sessionEnd := w.assetWriter.value.sessionEnd,
                            finishRequests := w.assetWriter.value.finishRequests) == w.assetWriter.value
    && r.(videoInput := w.videoInput, audioInput := w.audioInput, assetWriter := w.assetWriter,
          pendingCompletions := w.pendingCompletions) == w
    && r.pendingCompletions == w.pendingCompletions + 1
    && r.recordingInProgress == w.recordingInProgress
    && r.frameNumber == w.frameNumber && r.config == w.config
  }

  /** The completion handler of finishWriting: the inputs are released and
      recording is over. This is the only place recording is cleared
      besides reset. */
  function FinishCompleted(w: Writer): (r: Writer)
    requires w.pendingCompletions > 0
    ensures !r.recordingInProgress && r.videoInput.None? && r.audioInput.None?
    ensures r.pendingCompletions == w.pendingCompletions - 1
    ensures r.assetWriter == w.assetWriter && r.frameNumber == w.frameNumber
    ensures r.(videoInput := w.videoInput, audioInput := w.audioInput, recordingInProgress := w.recordingInProgress,
               pendingCompletions := w.pendingCompletions) == w
  {
    w.(videoInput := None, audioInput := None, recordingInProgress := false,
       pendingCompletions := w.pendingCompletions - 1)
  }

  datatype Event =
    | StartEvent(url: string, createOk: bool)
    | VideoSampleEvent(ready: bool, hasImage: bool)
    | AudioSampleEvent(ready: bool)
    | StopEvent
    | FinishCompletedEvent
    | ResetEvent

  /** One atomic event, as written. A completion is delivered
      only while a finishWriting is outstanding. */
  function Step(w: Writer, e: Event): Option<Writer> {
    match e
    case StartEvent(url, ok) => Some(Start(w, url, ok).writer)
    case VideoSampleEvent(ready, hasImage) => VideoSample(w, ready, hasImage)
    case AudioSampleEvent(ready) => AudioSample(w, ready)
    case StopEvent => Stop(w)
    case FinishCompletedEvent => if w.pendingCompletions > 0 then Some(FinishCompleted(w)) else Some(w)
    case ResetEvent => Some(Reset(w))
  }

  /** Events in order; a trap ends the run. */
  function Run(w: Writer, events: seq<Event>): Option<Writer>
    decreases |events|
  {
    if |events| == 0 then Some(w)
    else match Step(w, events[0])
      case None => None
      case Some(w') => Run(w', events[1..])
  }

  /** What every reachable writer satisfies. The frames appended to the
      current video input are exactly those numbered 0 to frameNumber-1,
      and once that input is finished the session ends at the next frame's
      time. */
  ghost predicate Inv(w: Writer) {
    && (w.audioOutput <==> w.config.recordAudio)
    && (w.audioInput.Some? ==> w.config.recordAudio)
    && (w.recordingInProgress ==> w.videoInput.Some? && (w.config.recordAudio ==> w.audioInput.Some?))
    && (w.videoInput.Some? ==> w.videoInput.value.appended == FrameTimes(w.frameNumber, w.config.frameRate))
    && (w.videoInput.Some? && w.videoInput.value.finished ==>
          w.assetWriter.Some? && w.assetWriter.value.sessionEnd == Some(FrameTime(w.frameNumber, w.config.frameRate)))
  }

  lemma InitInv(config: WriterConfig)
    ensures Inv(Init(config))
  {
  }

  lemma StepPreservesInv(w: Writer, e: Event)
    requires Inv(w)
    ensures Step(w, e).Some? ==> Inv(Step(w, e).value)
  {
    match e
    case VideoSampleEvent(ready, hasImage) =>
      if AppendsVideo(w, ready, hasImage) {
        var n := w.frameNumber;
        var fr := w.config.frameRate;
        assert FrameTimes(n + 1, fr) == FrameTimes(n, fr) + [FrameTime(n, fr)];
      }
    case _ =>
  }

  /** Under the invariant, the only event that can trap is a stop after the
      completion has released the inputs. */
  lemma StepTrapsOnlyOnStop(w: Writer, e: Event)
    requires Inv(w)
    ensures Step(w, e).None? ==> e == StopEvent && w.assetWriter.Some? && w.videoInput.None?
  {
  }

  lemma {:induction false} RunPreservesInv(w: Writer, events: seq<Event>)
    requires Inv(w)
    ensures Run(w, events).Some? ==> Inv(Run(w, events).value)
    decreases |events|
  {
    if |events| > 0 {
      StepPreservesInv(w, events[0]);
      if Step(w, events[0]).Some? {
        RunPreservesInv(Step(w, events[0]).value, events[1..]);
      }
    }
  }

  /** In every run from a new writer, the frames appended in the current
      session carry the times 0/fr, 1/fr, ..., (n-1)/fr with n the frame
      counter: strictly increasing, one frame interval apart, no gaps. */
  lemma SessionFrameTimes(config: WriterConfig, events: seq<Event>)
    requires Run(Init(config), events).Some?
    ensures var w := Run(Init(config), events).value;
      w.videoInput.Some? ==>
        && |w.videoInput.value.appended| == w.frameNumber
        && forall i :: 0 <= i < w.frameNumber ==> w.videoInput.value.appended[i] == FrameTime(i, config.frameRate)
  {
    InitInv(config);
    RunPreservesInv(Init(config), events);
    assert Run(Init(config), events).value.config == config by {
      RunKeepsConfig(Init(config), events);
    }
  }

  lemma {:induction false} RunKeepsConfig(w: Writer, events: seq<Event>)
    ensures Run(w, events).Some? ==> Run(w, events).value.config == w.config
    decreases |events|
  {
    if |events| > 0 && Step(w, events[0]).Some? {
      RunKeepsConfig(Step(w, events[0]).value, events[1..]);
    }
  }

  /** Once stopped, every frame of the session lies strictly before the
      session's end time. */
  lemma FramesBeforeSessionEnd(w: Writer, i: nat)
    requires Inv(w) && w.videoInput.Some? && w.videoInput.value.finished
    requires i < |w.videoInput.value.appended|
    ensures w.assetWriter.value.sessionEnd.Some?
    ensures Seconds(w.videoInput.value.appended[i]) < Seconds(w.assetWriter.value.sessionEnd.value)
  {
    FrameTimesIncrease(i, w.frameNumber, w.config.frameRate);
  }

  /** start, stop, completion, stop: the second stop traps on the released video input. */
  lemma StopAfterFinishTraps(config: WriterConfig, url: string)
    ensures Run(Init(config), [StartEvent(url, true), StopEvent, FinishCompletedEvent, StopEvent]) == None
  {
    var w0 := Init(config);
    var w1 := Start(w0, url, true).writer;
    var w2 := FinishInputs(w1);
    var w3 := FinishCompleted(w2);
    var es := [StartEvent(url, true), StopEvent, FinishCompletedEvent, StopEvent];
    assert es[1..] == [StopEvent, FinishCompletedEvent, StopEvent];
    assert es[1..][1..] == [FinishCompletedEvent, StopEvent];
    assert es[1..][1..][1..] == [StopEvent];
    assert Run(w0, es) == Run(w1, es[1..]);
    assert Stop(w1) == Some(w2);
    assert Run(w1, es[1..]) == Run(w2, es[1..][1..]);
    assert Run(w2, es[1..][1..]) == Run(w3, [StopEvent]);
    assert Stop(w3) == None;
  }

  /** stop() with the guard extended to the video input: a stop after the
      completion does nothing. */
  function StopGuarded(w: Writer): (r: Writer)
    ensures w.assetWriter.None? || w.videoInput.None? ==> r == w
    ensures w.assetWriter.Some? && w.videoInput.Some? ==> StopsWriter(w, r)
  {
    if w.assetWriter.None? || w.videoInput.None? then w else FinishInputs(w)
  }

  /** One event with the guarded stop. */
  function StepGuarded(w: Writer, e: Event): Option<Writer> {
    if e == StopEvent then Some(StopGuarded(w)) else Step(w, e)
  }

  function RunGuarded(w: Writer, events: seq<Event>): Option<Writer>
    decreases |events|
  {
    if |events| == 0 then Some(w)
    else match StepGuarded(w, events[0])
      case None => None
      case Some(w') => RunGuarded(w', events[1..])
  }

  /** With the guarded stop, no sequence of events from a new writer traps,
      and the invariant holds throughout. */
  lemma {:induction false} RunGuardedNeverTraps(w: Writer, events: seq<Event>)
    requires Inv(w)
    ensures RunGuarded(w, events).Some?
    ensures Inv(RunGuarded(w, events).value)
    decreases |events|
  {
    if |events| > 0 {
      var e := events[0];
      if e == StopEvent {
        StepPreservesInv(w, StopEvent);
      } else {
        StepTrapsOnlyOnStop(w, e);
        StepPreservesInv(w, e);
      }
      RunGuardedNeverTraps(StepGuarded(w, e).value, events[1..]);
    }
  }
}
