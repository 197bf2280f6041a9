# dr — a Dafny model of a dashboard-camera recorder

`dr` is an iOS drive recorder. It films through the back camera into an
`.mp4` file per recording, stamped with its start time. Recording starts from
the record button, or automatically when the car drives faster than a set
speed or the phone feels a jolt. It stops from the button, or when the phone
is unplugged from power. A playlist lists, labels and deletes the recordings.
This project models the sequential logic of that core as pure Dafny
functions over immutable state records, and proves what the code promises:

- **VideoWriter** (`video_writer.dfy`). This is the writer state machine.
  Its events are start, video sample, audio sample, stop, the asynchronous
  completion of `finishWriting`, and reset. Frame timestamps are
  `frameNumber/frameRate` as CoreMedia rationals (`media_time.dfy`).
- **MainViewController** (`main_view_controller.dfy`). This is the first
  revision's recorder screen. It covers the record-button toggle, the speed,
  g-force and battery triggers, and its own writer. That writer's
  dropped-frame callback appends at `frameNumber/25` through a pixel-buffer
  adaptor, which each `finishWriting` completion releases.
- **DriveRecorder** (`drive_recorder.dfy`). This is the later facade. It
  covers running and stopping the capture session, the recording
  bookkeeping, frame-rate validation under the device lock, and the two
  authorization checks, whose answers may arrive after `init` returns.
- **Config** (`config.dfy`). This covers the defaults, `save` and `load`
  over a key→value store, and `double(forKey:defaultValue:)`.
- **PlaylistCell** (`playlist_cell.dfy`). This covers the duration label
  (時間/分/秒), the size label (KB/MB/GB), the file size in KB and the
  timestamp label.
- **PlaylistViewController** (`playlist_view_controller.dfy`). This covers
  the `.mp4` listing filter, the row count and row deletion.
- **FilenameUtil** (`filename_util.dfy`). This covers the patterns
  `yyyyMMdd_HHmmss` and `yyyy/MM/dd HH:mm:ss` over calendar fields, with a
  strict, partial parser. The field symbols are those of section 8 (Date
  Format Patterns) of Unicode Technical Standard #35, Part 4. Zero-padded and
  unpadded decimal rendering is in `digits.dfy`. Path handling is in
  `paths.dfy`.

The following are inputs to the events, not computed by the model:

- whether a writer input is ready;
- whether a sample carries an image buffer;
- whether creating the file writer throws;
- whether the camera device can be locked for configuration;
- the answers to authorization requests;
- the current date's calendar fields;
- the home directory;
- the directory listing.

A runtime trap in Swift is a `None` result in the state machines. These
traps are a nil implicitly-unwrapped optional and an out-of-range index.
Where a trap depends only on an argument, the model makes it a `requires`
instead. These arguments are:

- the quality and sensibility indices read by `load`;
- the filename length in `timestampFromURL`;
- the deleted row;
- the Int32 conversion of the first frame-rate range's bounds in
  `configureCamera`;
- the UInt64 conversion of the duration in `durationFromAsset`. It traps
  from -1 s down and from 2^64 s up; between -1 and 0 it gives 0.

Frame times come from a frame counter, not from capture-clock deltas. The files also come from different revisions.
`Config.swift` in this revision defines no `frameRate`, and no
`DefaultFrameRate` is declared in its `Constants`. `VideoWriter.swift` has
only `start(_ url:)`, while DriveRecorder calls `videoWriter.start()`
without an argument and stores its Bool result. So the writer's frame rate
is a positive Int32 in its configuration snapshot. DriveRecorder takes the
writer's start result, and whether the writer's stop traps, as boolean
inputs, rather than composing them with `VideoWriter`'s own start and stop.
`DefaultFrameRate` is the constant 30.

## Model

| member | source | states |
|---|---|---|
| VideoWriter.Init | dr/VideoWriter.swift:26-34 | a new writer has the video output, has an audio output exactly when audio is recorded, is not recording, keeps the given configuration, and has no file writer, no inputs, frame counter 0 and no finish outstanding |
| VideoWriter.InitInv | dr/VideoWriter.swift:26-34 | a new writer satisfies the writer invariant |
| VideoWriter.Reset | dr/VideoWriter.swift:36-66 | reset clears recording and re-creates the outputs, with the audio output present iff audio is recorded; configuration, file writer, inputs and frame counter are unchanged |
| VideoWriter.FrameSizeFor | dr/VideoWriter.swift:69-70 | High gives width 1920, Medium 1280, Low 640; High and Medium are 16:9 and Low is 4:3 (1920×1080, 1280×720, 640×480) |
| VideoWriter.Start | dr/VideoWriter.swift:68-96 | start always resets the counter to 0 and makes a fresh video input; it returns exactly whether the writer could be created; on success the session starts at time zero, recording is in progress, and the file writer has the video track first plus exactly one audio track when audio is recorded (one track otherwise); on failure nothing else changes; on success only the inputs, counter, file writer and recording flag change, and the audio input is kept when audio is off |
| VideoWriter.VideoSample | dr/VideoWriter.swift:118-133 | a video sample is appended only when recording, the input is ready and unfinished, and an image buffer exists; it is appended at frameNumber/frameRate and the counter goes up by exactly one; only the input's appended times and the counter change; it traps when recording with the input released; in every other case the state is unchanged |
| VideoWriter.AudioSample | dr/VideoWriter.swift:118-138 | while recording with an audio output, a ready and unfinished audio input gets exactly one more sample; it traps when that input was released; an append changes nothing but that input's count; in every other case nothing changes |
| VideoWriter.Stop | dr/VideoWriter.swift:98-112 | with no file writer stop is a no-op; otherwise it finishes the video input and the audio input if present, ends the session at frameNumber/frameRate, requests one finish, and leaves recording in progress; the writer's url, tracks and session start, the outputs and the counter are kept; it traps exactly when the video input was already released |
| VideoWriter.FinishCompleted | dr/VideoWriter.swift:105-110 | the finish completion releases both inputs and clears recording; the file writer, outputs, config and counter are kept |
| VideoWriter.StepPreservesInv | dr/VideoWriter.swift:76-139 | every event keeps the invariant: the current input holds exactly the frames 0..frameNumber-1, audio input only when audio is recorded, and a finished input's session ends at frameNumber/frameRate |
| VideoWriter.StepTrapsOnlyOnStop | dr/VideoWriter.swift:98-104 | under the invariant the only event that can trap is a stop after the inputs were released |
| VideoWriter.RunPreservesInv | dr/VideoWriter.swift:68-139 | the invariant holds after any sequence of events |
| VideoWriter.SessionFrameTimes | dr/VideoWriter.swift:131-132 | in any run from a new writer the appended video times are exactly 0/fr, 1/fr, …, (n-1)/fr with n the frame counter |
| VideoWriter.FramesBeforeSessionEnd | dr/VideoWriter.swift:104 | once stopped, every appended frame time is strictly before the session end time |
| VideoWriter.StopAfterFinishTraps | dr/VideoWriter.swift:98-110 | start, stop, completion, stop traps on the released video input |
| VideoWriter.StopGuarded | dr/VideoWriter.swift:98-112 | a stop that also checks the video input is a no-op without a writer or input, and stops normally otherwise |
| VideoWriter.RunGuardedNeverTraps | dr/VideoWriter.swift:98-139 | with the guarded stop, no sequence of events traps and the invariant holds throughout |
| MediaTime.FrameTime | dr/VideoWriter.swift:131 | the time of frame n at rate fr is n/fr seconds |
| MediaTime.FrameTimes | dr/VideoWriter.swift:131-132 | the frame times of a session are one per frame number, in order |
| MediaTime.FrameTimesIncrease | dr/VideoWriter.swift:131-132 | frame times strictly increase and are one frame interval apart |
| MainViewController.RecordButtonTapped | dr/MainViewController.swift:80-86 | a tap while recording is exactly stopRecording and never traps; otherwise it is exactly startRecording, which traps iff creating the writer fails; a completed tap flips the recording flag |
| MainViewController.Init | dr/MainViewController.swift:29-48 | the screen starts with the given configuration, no recording, counter 0, no recordings made, no writer, input or adaptor, and no finish outstanding |
| MainViewController.StartRecording | dr/MainViewController.swift:180-200 | start succeeds exactly when the writer is created; it then sets recording, resets the counter to 0 with a fresh unfinished input and a new adaptor for this recording, and writes to the output path from time zero; outstanding finishes are kept |
| MainViewController.OutputPathName | dr/MainViewController.swift:91-93 | the output file's name is the start date as yyyyMMdd_HHmmss followed by ".mp4" |
| MainViewController.StopRecording | dr/MainViewController.swift:202-208 | stop clears recording; with a writer it requests one more finish, marks the input finished with its size and frames kept, keeps the writer's url, size and session start, and records the stopped recording's completion as outstanding; with no writer it only clears recording; counter and adaptor are untouched |
| MainViewController.FinishCompleted | dr/MainViewController.swift:204-206 | a finish completion sets the adaptor to nil, whichever recording it belongs to, and removes exactly that outstanding completion; nothing else changes |
| MainViewController.DroppedFrame | dr/MainViewController.swift:213-221 | with an image buffer, a ready unfinished input and an adaptor, the frame is appended at frameNumber/25 and the counter goes up by one, with the input's size and finished flag kept and nothing else changed; it traps exactly with an image and no input, or with an image, a ready unfinished input and no adaptor; otherwise nothing changes |
| MainViewController.ClampedSpeed | dr/MainViewController.swift:248-251 | a negative speed becomes 0; a non-negative one is kept |
| MainViewController.StoredInfo | dr/MainViewController.swift:252-256 | DriveInfo keeps the clamped speed times 3.6, the altitude and the position of the fix |
| MainViewController.LocationUpdate | dr/MainViewController.swift:246-265 | the last fix is stored; when the clamped m/s speed exceeds the auto-start speed, auto-start is on and nothing is recording, the result is startRecording on the state with the fix stored (a writer for the output path, counter 0, a new adaptor); otherwise only the stored fix changes |
| MainViewController.SpeedRuleUsesMetresPerSecond | dr/MainViewController.swift:252-261 | 5 m/s against a threshold of 10 does not start recording although the stored figure is 18 km/h |
| MainViewController.AccelerometerUpdate | dr/MainViewController.swift:275-287 | recording starts iff \|y\| or \|z\| exceeds the sensibility and nothing is recording; a missing sample or a running recording leaves everything unchanged |
| MainViewController.BatteryStateChanged | dr/MainViewController.swift:311-315 | recording stops iff recording, unplugged and auto-stop all hold; it never starts |
| MainViewController.RunKeepsAligned | dr/MainViewController.swift:196-221 | over any sequence of screen events the appended frames are exactly frames 0..n-1 at 1/25 s |
| MainViewController.NoFramesAfterStop | dr/MainViewController.swift:202-221 | start, stop, dropped frame, completion, dropped frame: nothing is appended after the stop, the counter stays 0 and the adaptor is released |
| MainViewController.OldCompletionReleasesNewAdaptor | dr/MainViewController.swift:202-221 | start, stop, start, the first stop's completion, then a ready frame: the run traps on the released adaptor |
| MainViewController.FinishCompletedChecked | dr/MainViewController.swift:204-206 | the corrected completion releases the adaptor only when it belongs to the recording that completion stopped, and removes exactly that outstanding completion |
| MainViewController.StepCheckedKeepsAdaptorInv | dr/MainViewController.swift:180-221 | with the corrected completion every event keeps the invariant that an open input has its adaptor and outstanding completions name only earlier recordings |
| MainViewController.RunCheckedDropNeverTrapsOnInput | dr/MainViewController.swift:202-221 | with the corrected completion, after any run a dropped frame never traps once an input exists |
| MainViewController.CheckedScenarioAppends | dr/MainViewController.swift:202-221 | on the start, stop, start, completion, frame run the corrected completion keeps the new adaptor and the frame is appended |
| MainViewController.RecordingAppearsInPlaylist | dr/MainViewController.swift:88-96 | a recording's file passes the playlist's ".mp4" filter and its row shows the start date as a timestamp |
| DriveRecorder.CameraAuthorization | dr/DriveRecorder.swift:262-282 | authorized gives true, denied or restricted give false, notDetermined gives the access request's answer |
| DriveRecorder.PhotoLibraryAuthorization | dr/DriveRecorder.swift:285-305 | true iff authorized, or notDetermined and the request returned authorized |
| DriveRecorder.ChainedAuthorization | dr/DriveRecorder.swift:30-34 | the chained checks deliver the photo-library answer, the camera answer being shadowed |
| DriveRecorder.Init | dr/DriveRecorder.swift:24-35 | a new recorder is idle with the configured preset and no writer yet; when both statuses are already determined `authorized` is the photo-library answer at once, otherwise it is false and an answer is pending |
| DriveRecorder.AuthorizationAnswered | dr/DriveRecorder.swift:30-34 | the late answer of an access request sets `authorized` to the photo-library answer and clears the pending flag; nothing else changes |
| DriveRecorder.AuthorizedIgnoresCamera | dr/DriveRecorder.swift:30-34 | once every answer is in, `authorized` is the photo-library answer and the camera answer never affects it |
| DriveRecorder.PendingNotAuthorized | dr/DriveRecorder.swift:270-273 | while the camera request is unanswered the recorder is not authorized |
| DriveRecorder.StartRunning | dr/DriveRecorder.swift:43-47 | the session ends up running; it is started only if it was not |
| DriveRecorder.StopRunning | dr/DriveRecorder.swift:49-53 | the session ends up stopped; it is stopped only if it was running |
| DriveRecorder.RunningIdempotent | dr/DriveRecorder.swift:43-53 | a second start or stop has no effect |
| DriveRecorder.Setup | dr/DriveRecorder.swift:104-106 | setup creates the video writer and changes nothing else |
| DriveRecorder.StartRecording | dr/DriveRecorder.swift:64-72 | it traps iff the writer was not set up; otherwise recording in progress equals the writer's start result, the completion runs once after the writer start, and nothing else changes |
| DriveRecorder.StopRecording | dr/DriveRecorder.swift:74-78 | it traps iff the writer was not set up or the writer's own stop traps; otherwise the writer is stopped, recording is cleared, then the completion runs once |
| DriveRecorder.RecordingNeedsSetup | dr/DriveRecorder.swift:20-41 | on a new recorder both recording calls trap; after setup a start never traps and a stop traps exactly when the writer's own stop does |
| DriveRecorder.CompletionLast | dr/DriveRecorder.swift:64-78 | of the calls that do not trap, exactly the recording calls end by calling their completion |
| DriveRecorder.Int32Of | dr/DriveRecorder.swift:190 | Int32 of a Double truncates toward zero |
| DriveRecorder.ConfigureFrameRate | dr/DriveRecorder.swift:182-214 | when the device cannot be locked nothing is saved or set and the completion gets an error; otherwise a rate outside the first range's truncated bounds is replaced by the default and saved, an in-range rate or an empty range list keeps it, the minimum frame duration is 1 over the resulting rate, and the completion gets no error |
| DriveRecorder.ConfigureFrameRateSettles | dr/DriveRecorder.swift:189-194 | validating the validated rate again changes nothing when the default is in range |
| DriveRecorder.DefaultNotRangeChecked | dr/DriveRecorder.swift:189-192 | the default replaces an out-of-range rate without itself being checked against the range |
| Config.DoubleOr | dr/Config.swift:73-79 | the stored double is returned unless it is absent or 0.0, in which case the default is |
| Config.IndexOf | dr/Config.swift:62-64 | index(of:) gives the first position of the value, or none when absent |
| Config.Load | dr/Config.swift:42-54 | load reads the booleans, never yields a 0 speed, and picks quality and sensibility from the offered lists |
| Config.Save | dr/Config.swift:56-68 | save stores booleans and speed directly and quality and sensibility as list indices (removing the sensibility key when it is not offered); other keys are untouched and no other key is added |
| Config.SaveIsLoadable | dr/Config.swift:48-51 | whatever save wrote can be loaded without an out-of-range index |
| Config.SaveLoadRoundTrip | dr/Config.swift:42-68 | load after save gives back the booleans and the quality exactly, the speed unless it was 0 (then 10.0), and the sensibility if offered (else Strong) |
| Config.SaveLoadIdentity | dr/Config.swift:42-68 | a config with an offered sensibility and non-zero speed survives save and load unchanged |
| Config.LoadEmptyStore | dr/Config.swift:30-51 | loading an empty store gives false booleans, speed 10.0, sensibility Strong and quality High, unlike a fresh Config's Medium |
| PlaylistCell.WholeSeconds | dr/PlaylistCell.swift:39 | a non-negative duration is truncated to the whole seconds below it; one between -1 and 0 gives 0; the result fits a UInt64 |
| PlaylistCell.Decompose | dr/PlaylistCell.swift:39-49 | hours·3600 + minutes·60 + seconds is the total, with minutes and seconds below 60 |
| PlaylistCell.DurationFromAsset | dr/PlaylistCell.swift:38-58 | under 60 s the label is "<s>秒", under 3600 s "<m>分<s>秒", otherwise "<h>時間<m>分<s>秒", with the numbers taken from the total by division |
| PlaylistCell.FileSizeFromURL | dr/PlaylistCell.swift:74-83 | the size is the whole kilobytes of the file, 0 when its attributes cannot be read |
| PlaylistCell.ReadSize | dr/PlaylistCell.swift:61-71 | the unit is KB below 1024 KB, MB below 1024² KB and GB beyond; the label's numbers bound the size to within one unit (for GB: one megabyte) |
| PlaylistCell.SizeFromURL | dr/PlaylistCell.swift:60-72 | the label is the reading's numbers followed by " KB", " MB" or "<gb>.<mb> GB" |
| PlaylistCell.SizeFractionIsMegabytes | dr/PlaylistCell.swift:69-71 | 1 GB + 5 MB shows as "1.5 GB": the part after the dot is leftover megabytes |
| PlaylistCell.SizeFractionNotDecimal | dr/PlaylistCell.swift:69-71 | 1 GB + 512 MB shows as "1.512 GB", not as a decimal fraction |
| PlaylistCell.TimestampFromURL | dr/PlaylistCell.swift:28-36 | the label is "" exactly when the name without its last four characters does not parse; otherwise it is 19 characters |
| PlaylistCell.TimestampOfRecordedFile | dr/PlaylistCell.swift:28-36 | a file named by its start date shows that date in the timestamp pattern |
| PlaylistViewController.ListVideoFiles | dr/PlaylistViewController.swift:37-51 | the list holds exactly the listing's ".mp4" entries in listing order, and is empty when listing throws |
| PlaylistViewController.ShowVideos | dr/PlaylistViewController.swift:32-35 | after showing, the table has one row per listed video file |
| PlaylistViewController.VideoFilesMembership | dr/PlaylistViewController.swift:43-47 | a URL is kept iff it is in the listing and its last component ends in ".mp4" |
| PlaylistViewController.VideoFilesKeepOrder | dr/PlaylistViewController.swift:43-47 | the kept files are a subsequence of the listing |
| PlaylistViewController.RowsOfListing | dr/PlaylistViewController.swift:88-90 | after a listing the row count is at most the number of entries, and equals it exactly when every entry is a video file |
| PlaylistViewController.CommitDelete | dr/PlaylistViewController.swift:64-75 | a successful delete removes exactly the chosen element and keeps the others in order; a failed one leaves the list unchanged; the table loses a row either way |
| PlaylistViewController.DeleteRemovesOnlyRow | dr/PlaylistViewController.swift:66-69 | putting the deleted file back at its row restores the list |
| PlaylistViewController.CommitDeleteFailureDesyncs | dr/PlaylistViewController.swift:64-75 | when removal fails, the table's rows and the data source's row count disagree |
| PlaylistViewController.CommitDeleteChecked | dr/PlaylistViewController.swift:64-75 | the corrected delete removes the row only on success and otherwise changes nothing |
| PlaylistViewController.CommitDeleteCheckedConsistent | dr/PlaylistViewController.swift:88-90 | the corrected delete keeps the table's rows equal to the row count |
| FilenameUtil.FilenameFromDate | dr/FilenameUtil.swift:13-17 | the file name has only digits and '_'; for years below 10000 it has 15 characters with '_' at index 8 |
| FilenameUtil.TimestampFromDate | dr/FilenameUtil.swift:19-23 | the timestamp has 19 characters for years below 10000 |
| FilenameUtil.TimestampFields | dr/FilenameUtil.swift:19-23 | each field of the timestamp reads back as the date's field, at the pattern's fixed positions |
| FilenameUtil.ParseFilename | dr/FilenameUtil.swift:28-32 | an accepted string is 15 characters with '_' at index 8 and names a valid date |
| FilenameUtil.DateFromFilename | dr/FilenameUtil.swift:28-32 | whatever is parsed renders back to exactly the parsed string |
| FilenameUtil.ReceiverIgnored | dr/FilenameUtil.swift:28-32 | the receiver string does not influence the result |
| FilenameUtil.ParseFilenameOfFilename | dr/FilenameUtil.swift:13-17 | parsing a rendered file name recovers the date |
| FilenameUtil.FilenameOfParse | dr/FilenameUtil.swift:28-32 | rendering a parsed date gives back the parsed string |
| FilenameUtil.DateFromFilenameRoundTrip | dr/FilenameUtil.swift:13-32 | dateFromFilename(filenameFromDate(d)) is d, to the second |
| FilenameUtil.DateFromFilenameRejectsLength | dr/FilenameUtil.swift:28-32 | a string not of length 15 has no date |
| FilenameUtil.DateFromFilenameRejectsMonth13 | dr/FilenameUtil.swift:28-32 | a well-formed string naming month 13 has no date |
| Digits.ValueOfPadded | dr/FilenameUtil.swift:15 | a zero-padded field reads back as its number when it fits |
| Digits.PaddedOfValue | dr/FilenameUtil.swift:30 | any digit string is the padded rendering of its value |
| Digits.ValueOfDecimal | dr/PlaylistCell.swift:51 | an interpolated number reads back as itself |
| Paths.LastPathComponent | dr/PlaylistViewController.swift:44 | the last component has no '/', ends the path, and is either the whole path or preceded by a '/' |
| Paths.LastPathComponentOfJoin | dr/MainViewController.swift:91-93 | joining a directory and a plain name gives that name as last component |

## Findings

| source | as written | input that shows it | evidently intended | confidence | as-written member | corrected member |
|---|---|---|---|---|---|---|
| dr/PlaylistViewController.swift:64-75 | the table row is deleted even when removing the file threw | a one-file list, row 0, removal fails: the table is told to delete a row while the data source still reports 1, so UIKit's row-count check in `deleteRows` raises NSInternalInconsistencyException and the app terminates | delete the table row only after the file was removed | medium; not executed | PlaylistViewController.CommitDeleteFailureDesyncs | PlaylistViewController.CommitDeleteCheckedConsistent |
| dr/MainViewController.swift:202-221 | the completion of an earlier stop sets `pixelBuffer` to nil even after a new recording has made a new adaptor | start, stop, start, the first stop's completion runs, then a dropped sample with an image and a ready input; as written that sample never arrives, because a dropped buffer carries no image and the video output is never added to the session, so the stale nil stays unseen | release only the adaptor of the recording that was stopped | low (latent); not executed | MainViewController.OldCompletionReleasesNewAdaptor | MainViewController.RunCheckedDropNeverTrapsOnInput |
| dr/VideoWriter.swift:98-110 | stop dereferences the video input whenever a file writer exists, but the previous stop's completion set the input to nil and never clears the writer | start, stop, finish completion, stop | a stop after the recording was finalised does nothing | medium; not executed | VideoWriter.StopAfterFinishTraps | VideoWriter.RunGuardedNeverTraps |

## Left out

- VideoWriter.Start: the configuration (audio, quality, frame rate) is a snapshot fixed for the writer's life. The source reads the shared Config each time, so a change between reset and start is not modelled.
- VideoWriter.VideoSample: `frameNumber += 1` on an Int64 traps on overflow in Swift. The model's counter is unbounded, so that trap is not modelled; it cannot be reached at real frame rates. The same holds for MainViewController.DroppedFrame.
- MainViewController.DroppedFrame: a buffer delivered to the dropped-sample callback carries no image data, so in the running app `hasImage` is false and nothing is appended. The model keeps `hasImage` an input so that the append branch the code contains can be stated.
- VideoWriter.VideoSample: after a failed start while recording, frames go to a fresh input that is not part of any file writer. The model records them on that input; what AVFoundation would do with them is not modelled.
- VideoWriter.Stop: a second stop before the completion requests a second `finishWriting`. How AVFoundation reacts to that is not modelled.
- VideoWriter: the `finishWriting` completion is treated as an atomic event between main-queue handlers. In the app it runs on a queue AVFoundation chooses, so a capture callback that passed the `recordingInProgress` check could find `videoAssetInput` or `audioAssetInput` already nil and trap; that race is not modelled.
- VideoWriter: the pixel-buffer adaptor is identified with the video input, because this writer's completion releases both together. Append success, encoding and the encoder settings beyond size and the AAC parameters are not modelled.
- MainViewController.StartRecording: when creating the writer fails, `startWriting` is called on the writer left from before: nil traps, and a used writer has already started, so AVFoundation raises. The model makes every failed create a trap.
- MainViewController.StopRecording: `finishWriting` is taken to mark an unfinished input finished at the call, so the input is never ready again. Its completion runs later, as its own event.
- MainViewController: the capture-session setup, preview layer and device configuration are left out (pure framework side effects). So are the timers, the labels (free storage in GB, battery level, `%.4f` and `%.f` formatting) and the configuration notifications, whose handlers are empty. In this revision the video output is never added to the capture session. The model treats the dropped-sample callback as delivered anyway.
- MainViewController: the `finishWriting` completion is treated as an atomic event between main-queue handlers. In the app it runs on a queue AVFoundation chooses, so it could set `pixelBuffer` to nil while the sample callback runs; that race is not modelled.
- MainViewController: DriveInfo is folded into the location step. The GPS and motion-manager setup are inputs.
- DriveRecorder: the following are left out as AVFoundation device configuration: `doFocus`, `configurationChanged`, `setup` apart from creating the writer, `addCamera`/`addMicrophone` and their removal, low-light boost, HDR, focus, exposure and white balance. `takePhoto` calls `takeStillImage`, which `VideoWriter.swift` does not define.
- DriveRecorder: `Constants` in `Config.swift` declares no `DefaultFrameRate`. 30 is used, matching the 1/30 s minimum frame duration in `MainViewController.swift:121`.
- DriveRecorder.AuthorizationAnswered: the two access requests are answered together in one event. The camera answer alone is never stored, so nothing observable is lost.
- DriveRecorder.ConfigureFrameRate: the trap for range bounds outside Int32 is a precondition.
- Config: UserDefaults coerces between number kinds. The model does not: a key holding a value of another kind reads as the reader's default. The load and save notifications are left out.
- Config.Load: an out-of-range stored index traps in the source. The model requires the index to be in range.
- PlaylistCell: the thumbnail and `setURL` wiring are UI. A NaN duration, or one that truncates outside UInt64, traps in the source, so the model requires a duration strictly between -1 s and 2^64 s.
- PlaylistCell.TimestampFromURL: the source traps on a name shorter than five characters. The model requires at least five.
- PlaylistViewController.CommitDelete: the failure branch models the row-count mismatch between the table and its data source. The NSInternalInconsistencyException UIKit raises for it, which ends the app, is not modelled.
- PlaylistViewController: row selection (it presents the player), the row height, editability and dismissal are UI.
- FilenameUtil: conversion between instants and calendar fields is left out, including time zone, locale and calendar. The parser is strict: it does not model DateFormatter's lenient parsing.
- Paths.LastPathComponent: a path ending in '/' has an empty last component here. Foundation would skip the trailing slash.
- PlayerViewController, ConfigViewController and the pixel-buffer adaptor additions are UI or thin framework wrappers and are not modelled.
