# native_audio playback core in Dafny

This project models the Android side of the `native_audio` Flutter plugin. It
covers the playback state machine:

- the `AudioService` of the `com.danielgauci` package, which is the session
  controller with audio focus and headset/Bluetooth handling;
- the older `AudioService` of the `studio.darngood` package, modelled as a
  separate class so that the differences can be stated;
- the `AudioPlayer` wrapper around `MediaPlayer`;
- the two broadcast classifiers, `BluetoothManager.onReceive` and
  `HeadsetManager.onReceive`.

Callbacks arrive on the main thread one at a time, so every operation is a
sequential method on a class. Each class keeps the source's fields as real
fields. Its Android collaborators are ghost state and a ghost, append-only
event log:

- the media session's active flag;
- the foreground-service state;
- the outstanding audio-focus request;
- notification images still loading;
- for the player, the MediaPlayer's playing flag and the ticks of the
  progress runnable.

Each method's `ensures` gives the new state and the events it appends. The
appended events are written as a specification function of the old state:

- `PublishEvents` for `updatePlaybackState`;
- `ResumeEvents`, `PauseEvents`, `StopEvents`, `SeekEvents` and
  `CommandEvents` for the commands.

Lemmas then prove what the source promises about those functions. Every
command reports its callback to the host exactly once, and `HostReports`
projects a log onto the host callbacks. The lemmas also cover the foreground
and focus decisions, and the de-duplication of progress reports.

Files:

- `media.dfy` (module `Media`): shared vocabulary. It holds the playback
  states, the session callbacks and the commands they run, the ±30 s skip
  targets, the event log, `updatePlaybackState`'s output and the
  host-report projection.
- `bluetooth.dfy`, `headset.dfy`: the receivers' `onReceive` classifiers, as
  functions.
- `player.dfy` (module `Player`): class `AudioPlayer`.
- `com_service.dfy` (module `ComService`): the focus policy and class
  `AudioService`.
- `studio_service.dfy` (module `StudioService`): class `AudioService` of the
  studio variant.

The library's documented behaviour differs from this code in places. The
model follows the code:

- Pause and stop do not cancel the progress ticks. Only completion removes
  the runnable.
- The studio `seekTo` does not resume playback. The com `seekTo` always
  resumes.
- A skip back is not clamped at 0. It is skipped when 30 s or less have been
  played.
- `AudioPlayer.stop` and `play` leave `isLoaded` as it was.
- No seek emits a progress report of its own.

## Model

| member | source | states |
|---|---|---|
| Media.ForwardTarget | android/src/main/kotlin/com/danielgauci/native_audio/AudioService.kt:302-307 | forward30 seeks iff more than 30000 ms are left, to position + 30000, which lies strictly inside the track |
| Media.RewindTarget | android/src/main/kotlin/com/danielgauci/native_audio/AudioService.kt:309-314 | rewind30 seeks iff more than 30000 ms have been played, to position − 30000, which is positive and before the position |
| Media.CommandFor | android/src/main/kotlin/com/danielgauci/native_audio/AudioService.kt:83-123 | next and fast-forward both run forward30; previous and rewind both run rewind30; play, pause, stop and seek(pos) run resume, pause, stop and seekTo(pos). Each is stated as an iff |
| Media.BlankUnlessSome | android/src/main/kotlin/com/danielgauci/native_audio/AudioService.kt:248-253 | passing `imageUrl ?: ""` to showNotification keeps its null-or-blank test: a missing image URL counts as blank |
| Media.PublishEvents | android/src/main/kotlin/com/danielgauci/native_audio/AudioService.kt:480-513 | updatePlaybackState always publishes the state and position to the session first; without a shown notification it does nothing else |
| Media.PublishPolicy | android/src/main/kotlin/com/danielgauci/native_audio/AudioService.kt:489-508 | with a shown notification: ongoing iff playing; startForeground iff playing and the state changed; stopForeground(false) iff not playing; notify iff not (playing and changed); none of these without the notification |
| Media.PublishOrder | android/src/main/kotlin/com/danielgauci/native_audio/AudioService.kt:489-508 | the buttons and the ongoing flag follow the session update; a non-playing service leaves the foreground and then notifies, in that order; only publication events occur |
| Media.PublishingReportsNothing | android/src/main/kotlin/com/danielgauci/native_audio/AudioService.kt:480-513 | updatePlaybackState makes no callback to the host |
| Bluetooth.OnReceive | android/src/main/kotlin/com/danielgauci/native_audio/BluetoothManager.kt:21-50 | A2DP CONNECTED fires onConnected whatever the previous state. DISCONNECTED or DISCONNECTING fires onDisconnected iff the previous state was CONNECTED. The same holds for headset AUDIO_CONNECTED and AUDIO_DISCONNECTED. A null action, null extras or any other action fires nothing. At most one callback fires |
| Headset.OnReceive | android/src/main/kotlin/com/danielgauci/native_audio/HeadsetManager.kt:21-27 | the initial sticky broadcast and an intent without "state" fire nothing; onDisconnected iff state is 0; onConnected iff state is 1; at most one callback |
| Player.ToInt | android/src/main/kotlin/com/danielgauci/native_audio/AudioPlayer.kt:86-90 | Long.toInt keeps values in Int range and otherwise wraps modulo 2^32 into that range |
| Player.Reported | android/src/main/kotlin/com/danielgauci/native_audio/AudioPlayer.kt:15-25 | the runnable never reports more positions than it has read |
| Player.ReportedNoRepeats | android/src/main/kotlin/com/danielgauci/native_audio/AudioPlayer.kt:16-22 | no report equals the position stored before it: the first differs from the start, each differs from the previous one, and every report was read |
| Player.ReportedAppend | android/src/main/kotlin/com/danielgauci/native_audio/AudioPlayer.kt:16-22 | one more tick adds a report exactly when it differs from the stored progress |
| Player.ChangesAllReported | android/src/main/kotlin/com/danielgauci/native_audio/AudioPlayer.kt:16-22 | conversely, a run of ticks that each differ from the one before is reported in full |
| Player.AudioPlayer.constructor | android/src/main/kotlin/com/danielgauci/native_audio/AudioPlayer.kt:56-57 | starts unloaded at progress 0, not playing, with nothing posted |
| Player.AudioPlayer.Play | android/src/main/kotlin/com/danielgauci/native_audio/AudioPlayer.kt:59-63 | stops (stop and reset) a playing track, then resets, sets the source and prepares asynchronously; nothing starts playback, and isLoaded is left as it was |
| Player.AudioPlayer.LoadAudio | android/src/main/kotlin/com/danielgauci/native_audio/AudioPlayer.kt:96-109 | reset, setDataSource, prepareAsync; the continuation is never called |
| Player.AudioPlayer.Resume | android/src/main/kotlin/com/danielgauci/native_audio/AudioPlayer.kt:65-69 | starts the MediaPlayer iff loaded and not playing, otherwise changes nothing, so a second resume is a no-op |
| Player.AudioPlayer.Pause | android/src/main/kotlin/com/danielgauci/native_audio/AudioPlayer.kt:71-75 | pauses iff playing and ends not playing, so a second pause is a no-op |
| Player.AudioPlayer.Stop | android/src/main/kotlin/com/danielgauci/native_audio/AudioPlayer.kt:77-84 | stops and resets iff playing; isLoaded and the ticks are untouched |
| Player.AudioPlayer.SeekTo | android/src/main/kotlin/com/danielgauci/native_audio/AudioPlayer.kt:86-90 | seeks to the Int-narrowed target iff loaded, otherwise changes nothing |
| Player.AudioPlayer.Release | android/src/main/kotlin/com/danielgauci/native_audio/AudioPlayer.kt:92-94 | releases the MediaPlayer and changes no flag |
| Player.AudioPlayer.OnPrepared | android/src/main/kotlin/com/danielgauci/native_audio/AudioPlayer.kt:29-41 | starts playback, reports the duration once, posts the progress runnable, sets isLoaded |
| Player.AudioPlayer.OnCompletion | android/src/main/kotlin/com/danielgauci/native_audio/AudioPlayer.kt:43-52 | reports completion, removes the runnable, clears isLoaded |
| Player.AudioPlayer.OnProgressTick | android/src/main/kotlin/com/danielgauci/native_audio/AudioPlayer.kt:15-25 | reports and stores a position only when it differs from the stored one, then re-posts. It keeps the invariant that the log's progress reports are exactly the de-duplicated ticks |
| ComService.FocusDecision | android/src/main/kotlin/com/danielgauci/native_audio/AudioService.kt:168-192 | gain resumes iff the flag is set and not playing, then clears the flag; a transient loss pauses iff playing, setting the flag first; a permanent loss stops and clears the flag; ducking and unknown codes do nothing |
| ComService.TransientLossRoundTrip | android/src/main/kotlin/com/danielgauci/native_audio/AudioService.kt:168-192 | a transient loss while playing pauses with the flag already set, so the pause logs no FocusAbandoned and leaves the service PAUSED; regaining focus then resumes, ends PLAYING and clears the flag |
| ComService.ResumeReportsOnce | android/src/main/kotlin/com/danielgauci/native_audio/AudioService.kt:256-265 | resume reports onResumed to the host exactly once, whatever the prior state |
| ComService.ResumeForeground | android/src/main/kotlin/com/danielgauci/native_audio/AudioService.kt:256-265 | resume starts the foreground iff the notification is shown and PLAYING was not last published; otherwise a shown notification is only re-notified |
| ComService.PausedReportsOnce | android/src/main/kotlin/com/danielgauci/native_audio/AudioService.kt:271-277 | up to the focus decision, pause reports onPaused exactly once |
| ComService.PauseReportsOnce | android/src/main/kotlin/com/danielgauci/native_audio/AudioService.kt:271-280 | pause reports onPaused exactly once, whether or not it abandons focus |
| ComService.PauseFocus | android/src/main/kotlin/com/danielgauci/native_audio/AudioService.kt:271-280 | pause abandons focus iff resumeOnAudioFocus is false; it leaves the foreground iff the notification is shown; it never starts the foreground |
| ComService.StopReportsOnce | android/src/main/kotlin/com/danielgauci/native_audio/AudioService.kt:282-295 | stop reports onStopped exactly once |
| ComService.SeekReportsOnce | android/src/main/kotlin/com/danielgauci/native_audio/AudioService.kt:297-300 | a seek reports onResumed exactly once, through the resume that follows it |
| ComService.AudioService.constructor | android/src/main/kotlin/com/danielgauci/native_audio/AudioService.kt:70-75 | STOPPED, nothing published yet (the Int.MIN_VALUE sentinel), position and duration 0, no flag set |
| ComService.AudioService.Play | android/src/main/kotlin/com/danielgauci/native_audio/AudioService.kt:232-254 | requests focus, hands url and looping flag to the player, activates the session, publishes PLAYING; a blank image URL puts the notification up in the foreground at once, any other URL leaves it to the image load |
| ComService.AudioService.Resume | android/src/main/kotlin/com/danielgauci/native_audio/AudioService.kt:256-265 | ends PLAYING with focus requested and the events of ResumeEvents; in the foreground iff the notification is shown |
| ComService.AudioService.Pause | android/src/main/kotlin/com/danielgauci/native_audio/AudioService.kt:271-280 | ends PAUSED and out of the foreground; the focus request survives iff resumeOnAudioFocus; the events are PauseEvents |
| ComService.AudioService.Stop | android/src/main/kotlin/com/danielgauci/native_audio/AudioService.kt:282-295 | ends STOPPED with the notification cancelled, out of the foreground, session inactive and focus abandoned, whatever the prior state; STOPPED is never published |
| ComService.AudioService.SeekTo | android/src/main/kotlin/com/danielgauci/native_audio/AudioService.kt:297-300 | seeks to t and then always ends PLAYING through resume |
| ComService.AudioService.Forward30 | android/src/main/kotlin/com/danielgauci/native_audio/AudioService.kt:302-307 | seeks (and so resumes, holding focus, in the foreground iff the notification is shown) iff ForwardTarget allows it; otherwise nothing in the service changes |
| ComService.AudioService.Rewind30 | android/src/main/kotlin/com/danielgauci/native_audio/AudioService.kt:309-314 | seeks (and so resumes, holding focus, in the foreground iff the notification is shown) iff RewindTarget allows it; otherwise nothing in the service changes |
| ComService.AudioService.OnSessionCallback | android/src/main/kotlin/com/danielgauci/native_audio/AudioService.kt:83-123 | runs the command CommandFor picks and ends in that command's StateAfter. onStop takes the notification down, leaves the foreground, deactivates the session and abandons focus. onPause leaves the foreground, keeping focus only while resumeOnAudioFocus is set. A callback that resumes holds focus and is in the foreground iff the notification is shown. A skip whose guard fails changes nothing |
| ComService.AudioService.OnAudioFocusChange | android/src/main/kotlin/com/danielgauci/native_audio/AudioService.kt:168-192 | runs what FocusDecision picks, with resumeOnAudioFocus set as it says. A permanent loss takes the notification down, leaves the foreground, deactivates the session and abandons focus. A transient loss pauses and keeps focus. A gain resumes with focus held. With no command, nothing in the service changes |
| ComService.AudioService.OnHeadsetBroadcast | android/src/main/kotlin/com/danielgauci/native_audio/AudioService.kt:207-210 | a headset disconnect pauses: out of the foreground, focus kept only while resumeOnAudioFocus is set; anything else changes nothing in the service |
| ComService.AudioService.OnBluetoothBroadcast | android/src/main/kotlin/com/danielgauci/native_audio/AudioService.kt:212-215 | a Bluetooth disconnect pauses: out of the foreground, focus kept only while resumeOnAudioFocus is set; anything else changes nothing in the service |
| ComService.AudioService.PlayerLoaded | android/src/main/kotlin/com/danielgauci/native_audio/AudioService.kt:133-139 | stores the duration, reports it, publishes it in the metadata |
| ComService.AudioService.PlayerProgressChanged | android/src/main/kotlin/com/danielgauci/native_audio/AudioService.kt:140-144 | stores the position before reporting it and publishing the state with it |
| ComService.AudioService.PlayerCompleted | android/src/main/kotlin/com/danielgauci/native_audio/AudioService.kt:145 | reports completion and changes nothing else |
| ComService.AudioService.Destroy | android/src/main/kotlin/com/danielgauci/native_audio/AudioService.kt:220-223 | releases the player and changes nothing else |
| ComService.AudioService.NotificationImageReady | android/src/main/kotlin/com/danielgauci/native_audio/AudioService.kt:431-469 | a loaded (or failed) image puts the notification up in the foreground |
| ComService.AudioService.ShowNotification | android/src/main/kotlin/com/danielgauci/native_audio/AudioService.kt:420-472 | a blank URL shows the notification in the foreground at once; otherwise one more image is pending and nothing else changes |
| ComService.AudioService.CancelNotification | android/src/main/kotlin/com/danielgauci/native_audio/AudioService.kt:474-478 | leaves the foreground removing the notification, cancels it, clears isNotificationShown |
| ComService.AudioService.UpdatePlaybackState | android/src/main/kotlin/com/danielgauci/native_audio/AudioService.kt:480-513 | appends PublishEvents for the state, the position and whether the state changed since last published; afterwards oldPlaybackState equals the current state; with the notification shown, in the foreground iff PLAYING |
| StudioService.RunKeeping | android/src/main/kotlin/studio/darngood/native_audio/AudioService.kt:197-213 | any run of seeks and skips leaves the playback state as it was |
| StudioService.LastSetterWins | android/src/main/kotlin/studio/darngood/native_audio/AudioService.kt:167-195 | after any command sequence, the last resume, pause or stop decides the state |
| StudioService.LastPauseOrResumeWins | android/src/main/kotlin/studio/darngood/native_audio/AudioService.kt:167-183 | the last of any pause/resume sequence determines the state |
| StudioService.ResumeReportsOnce | android/src/main/kotlin/studio/darngood/native_audio/AudioService.kt:167-174 | resume reports onResumed exactly once |
| StudioService.PauseReportsOnce | android/src/main/kotlin/studio/darngood/native_audio/AudioService.kt:176-183 | pause reports onPaused exactly once |
| StudioService.StopReportsOnce | android/src/main/kotlin/studio/darngood/native_audio/AudioService.kt:185-195 | stop reports onStopped exactly once |
| StudioService.StopTailReports | android/src/main/kotlin/studio/darngood/native_audio/AudioService.kt:191-194 | of stop's tail (cancel, deactivate, report), the host hears only onStopped |
| StudioService.SeeksReportNothing | android/src/main/kotlin/studio/darngood/native_audio/AudioService.kt:197-213 | seeks and skips issue at most one seek and report nothing to the host |
| StudioService.AudioService.constructor | android/src/main/kotlin/studio/darngood/native_audio/AudioService.kt:47-50 | STOPPED, position and duration 0, no notification |
| StudioService.AudioService.Play | android/src/main/kotlin/studio/darngood/native_audio/AudioService.kt:146-165 | hands the url to the player, activates the session, sets and publishes PLAYING, then shows the notification |
| StudioService.AudioService.Resume | android/src/main/kotlin/studio/darngood/native_audio/AudioService.kt:167-174 | ends PLAYING and logs CommandEvents(Resume), which contain onResumed |
| StudioService.AudioService.Pause | android/src/main/kotlin/studio/darngood/native_audio/AudioService.kt:176-183 | ends PAUSED, out of the foreground, and logs CommandEvents(Pause), which contain onPaused |
| StudioService.AudioService.Stop | android/src/main/kotlin/studio/darngood/native_audio/AudioService.kt:185-195 | ends STOPPED; publishes STOPPED while the notification still counts as shown, then cancels it, deactivates the session and reports onStopped |
| StudioService.AudioService.SeekTo | android/src/main/kotlin/studio/darngood/native_audio/AudioService.kt:197-199 | only asks the player to seek; the state, session and notification are unchanged |
| StudioService.AudioService.Forward30 | android/src/main/kotlin/studio/darngood/native_audio/AudioService.kt:201-206 | seeks iff ForwardTarget allows it; never changes the state |
| StudioService.AudioService.Rewind30 | android/src/main/kotlin/studio/darngood/native_audio/AudioService.kt:208-213 | seeks iff RewindTarget allows it; never changes the state |
| StudioService.AudioService.OnSessionCallback | android/src/main/kotlin/studio/darngood/native_audio/AudioService.kt:57-97 | runs the command CommandFor picks and ends in StateAfter of it. onStop leaves the notification cancelled, the session inactive and the service out of the foreground. onPause leaves the foreground. onPlay is in the foreground iff the notification is shown. Seeks and skips leave the foreground state, notification and session alone |
| StudioService.AudioService.PlayerLoaded | android/src/main/kotlin/studio/darngood/native_audio/AudioService.kt:107-116 | stores the duration, reports it, publishes it in the metadata |
| StudioService.AudioService.PlayerProgressChanged | android/src/main/kotlin/studio/darngood/native_audio/AudioService.kt:117-121 | stores the position before reporting it and publishing the state with it |
| StudioService.AudioService.PlayerCompleted | android/src/main/kotlin/studio/darngood/native_audio/AudioService.kt:122 | reports completion and changes nothing else |
| StudioService.AudioService.NotificationImageReady | android/src/main/kotlin/studio/darngood/native_audio/AudioService.kt:308-347 | a loaded (or failed) image puts the notification up in the foreground |
| StudioService.AudioService.ShowNotification | android/src/main/kotlin/studio/darngood/native_audio/AudioService.kt:297-349 | a blank URL shows the notification in the foreground at once; otherwise one more image is pending |
| StudioService.AudioService.CancelNotification | android/src/main/kotlin/studio/darngood/native_audio/AudioService.kt:351-354 | cancels the notification without touching the foreground state |
| StudioService.AudioService.UpdatePlaybackState | android/src/main/kotlin/studio/darngood/native_audio/AudioService.kt:356-383 | appends PublishEvents with the state always counted as changed: with the notification shown, startForeground iff PLAYING, otherwise stopForeground(false) then notify |

## Left out

- `NativeAudioPlugin.kt` (both packages), `ServiceExt.kt`, the example `Application.kt` and the iOS plugin are not part of this model. They hold method-channel marshalling, service binding, an ActivityManager query and an OS-version string, with no playback logic.
- Notification construction is left out: `updateNotificationBuilder`, `setNotificationButtons`, `createNotificationChannel`, the title/artist/album metadata and the Glide/Palette bitmap and colour. `NotificationButtons(playing)` and `NotificationOngoing(ongoing)` record only the play/pause choice and the ongoing flag. An image load, successful or not, is the single later event `NotificationImageReady`.
- The service's metadata object at com `AudioService.kt:77` does not compile as written. The commented-out queue code and the `0f` playback speed given to `setState` are also left out. `PlayerLoaded` logs only the duration it publishes.
- The players are abstract in both services. The services record their calls into the player as events and do not run `AudioPlayer`. The com service calls player members that `AudioPlayer.kt` does not declare: `play(url, isLooping)`, `getDuration()`, and the `onError`, `onBuffer*` and `onDuration` callbacks. Their forwarding and `getDuration` are not modelled. `PlayerPlayLooping` records the looping flag as given.
- The host callbacks are nullable in the source (`?.invoke`). The model logs each report as if a callback were set.
- Receiver registration is not modelled. This covers registering on every `onStartCommand`, `registerReceiver`/`unregisterReceiver`, `MediaButtonReceiver.handleIntent`, and the studio session's flags. Only the classification and the disconnect → pause wiring are modelled.
- MediaPlayer internals and Handler timing are not modelled. The one-second delay becomes "a tick may occur" (`ticking`), and the position read by a tick is a parameter. Posting the runnable a second time, when a new track is prepared while ticks run, is seen only as `ticking` staying true. The MediaPlayer's own state machine, and the errors a call in the wrong state raises, are not modelled. For example, `resume` after `stop` starts a reset player, because `stop` leaves `isLoaded` set.
- Positions and durations are Kotlin `Long`s, modelled as unbounded integers. The 64-bit wrap-around of `position ± 30000` is not modelled. The skips narrow only the constant 30000 to `Int`, which is exact, and the target stays a `Long`. The one narrowing of a position to `Int` is `timeInMillis.toInt()` in `AudioPlayer.seekTo`, which `Player.ToInt` models. The services' abstract player does not narrow.
- Media.PublishEvents: its own contract states only the session update and the no-notification case. The notification policy and the order of steps are proved separately as `Media.PublishPolicy` and `Media.PublishOrder`.
- Player.Reported: its own contract states only the bound on the number of reports. The no-repeat and subset properties are `Player.ReportedNoRepeats`.
