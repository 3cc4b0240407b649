/** The com.danielgauci variant of the playback service. Compared with the
    studio variant it holds audio focus while it plays, remembers the state it
    last published (so that a repeated "playing" only re-notifies), resumes
    after a seek, and pauses when a headset is unplugged or a Bluetooth device
    disconnects. Its collaborators (the MediaPlayer wrapper, the audio manager,
    the media session, the notification manager and the foreground-service
    state) are ghost state and a ghost event log. */
module ComService {
  import opened Media
  import Bluetooth
  import Headset

  // ---------------------------------------------------------------------------
  // Audio focus

  /** AudioManager.AUDIOFOCUS_* codes delivered to the focus listener. */
  const AudioFocusGain: int := 1
  const AudioFocusLoss: int := -1
  const AudioFocusLossTransient: int := -2
  const AudioFocusLossTransientCanDuck: int := -3

  /** The focus listener's decision: the command it runs, if any, and the new
      value of resumeOnAudioFocus (the value a pause it runs already sees).
      A regained focus resumes only playback that a transient loss paused; a
      transient loss pauses only while playing and remembers to resume; a
      permanent loss forgets that and stops; ducking and unknown codes do
      nothing. */
  function FocusDecision(focusChange: int, resumeOnAudioFocus: bool, playing: bool): (d: (Option<Command>, bool))
    ensures d.0 == Some(Resume) <==> focusChange == AudioFocusGain && resumeOnAudioFocus && !playing
    ensures d.0 == Some(Pause) <==> focusChange == AudioFocusLossTransient && playing
    ensures d.0 == Some(Command.Stop) <==> focusChange == AudioFocusLoss
    ensures d.0.None? || d.0 == Some(Resume) || d.0 == Some(Pause) || d.0 == Some(Command.Stop)
    ensures d.0 == Some(Pause) ==> d.1
    ensures d.0 == Some(Resume) || d.0 == Some(Command.Stop) ==> !d.1
    ensures d.0.None? ==> d.1 == resumeOnAudioFocus
  {
    if focusChange == AudioFocusGain then
      if resumeOnAudioFocus && !playing then (Some(Resume), false) else (None, resumeOnAudioFocus)
    else if focusChange == AudioFocusLossTransientCanDuck then
      (None, resumeOnAudioFocus)
    else if focusChange == AudioFocusLossTransient then
      if playing then (Some(Pause), true) else (None, resumeOnAudioFocus)
    else if focusChange == AudioFocusLoss then
      (Some(Stop), false)
    else
      (None, resumeOnAudioFocus)
  }

  // ---------------------------------------------------------------------------
  // What each command logs

  /** resume: requests focus, resumes the player, publishes PLAYING (a change
      unless PLAYING was the state last published), and reports onResumed. */
  function ResumeEvents(position: int, shown: bool, published: Option<PlaybackState>): seq<Event> {
    [FocusRequested, PlayerResume] + PublishEvents(Playing, position, shown, published != Some(Playing)) + [OnResumed]
  }

  /** pause: pauses the player, publishes PAUSED, reports onPaused, and gives
      up focus unless a transient loss is to be resumed from. */
  function PauseEvents(position: int, shown: bool, published: Option<PlaybackState>, resumeOnAudioFocus: bool): seq<Event> {
    var paused := [PlayerPause] + PublishEvents(Paused, position, shown, published != Some(Paused)) + [OnPaused];
    if resumeOnAudioFocus then paused else paused + [FocusAbandoned]
  }

  /** stop: publishes nothing; it takes the notification down with the
      foreground, deactivates the session, reports onStopped, gives up focus
      and stops the service. */
  const StopEvents: seq<Event> :=
    [PlayerStop, StopForeground(true), NotificationCancelled, SessionActive(false), OnStopped, FocusAbandoned, StopSelf]

  /** seekTo: moves the player, then resumes. */
  function SeekEvents(millis: int, position: int, shown: bool, published: Option<PlaybackState>): seq<Event> {
    [PlayerSeekTo(millis)] + ResumeEvents(position, shown, published)
  }

  /** The events a session command logs, from the position, the duration,
      whether the notification is shown, the state last published and the
      resumeOnAudioFocus flag. */
  function CommandEvents(c: Command, position: int, duration: int, shown: bool,
                         published: Option<PlaybackState>, resumeOnAudioFocus: bool): seq<Event>
  {
    match c
    case Resume => ResumeEvents(position, shown, published)
    case Pause => PauseEvents(position, shown, published, resumeOnAudioFocus)
    case Stop => StopEvents
    case SeekTo(t) => SeekEvents(t, position, shown, published)
    case Forward30 =>
      (match ForwardTarget(position, duration)
       case Some(t) => SeekEvents(t, position, shown, published)
       case None => [])
    case Rewind30 =>
      (match RewindTarget(position)
       case Some(t) => SeekEvents(t, position, shown, published)
       case None => [])
  }

  /** The playback state a session command leaves: every seek that happens
      resumes, so seeks and skips that move the player end PLAYING. */
  function StateAfter(s: PlaybackState, c: Command, position: int, duration: int): PlaybackState {
    match c
    case Resume => Playing
    case Pause => Paused
    case Stop => Stopped
    case SeekTo(_) => Playing
    case Forward30 => if ForwardTarget(position, duration).Some? then Playing else s
    case Rewind30 => if RewindTarget(position).Some? then Playing else s
  }

  /** Whether a session command ends by resuming: resume itself, a seek, or a
      skip whose guard holds. */
  predicate Resumes(c: Command, position: int, duration: int) {
    c == Resume || c.SeekTo? ||
    (c == Forward30 && ForwardTarget(position, duration).Some?) ||
    (c == Rewind30 && RewindTarget(position).Some?)
  }

  // ---------------------------------------------------------------------------
  // Properties of the command logs

  /** resume reports onResumed to the host, once. */
  lemma ResumeReportsOnce(position: int, shown: bool, published: Option<PlaybackState>)
    ensures HostReports(ResumeEvents(position, shown, published)) == [OnResumed]
  {
    ReportsAround([FocusRequested, PlayerResume], Playing, position, shown, published != Some(Playing), [OnResumed]);
  }

  /** Up to the focus decision, pause reports onPaused to the host, once. */
  lemma PausedReportsOnce(position: int, shown: bool, changed: bool)
    ensures HostReports([PlayerPause] + PublishEvents(Paused, position, shown, changed) + [OnPaused]) == [OnPaused]
  {
    ReportsAround([PlayerPause], Paused, position, shown, changed, [OnPaused]);
    HostReportsOne(PlayerPause);
    HostReportsOne(OnPaused);
  }

  /** pause reports onPaused to the host, once, whether or not it keeps focus. */
  lemma PauseReportsOnce(position: int, shown: bool, published: Option<PlaybackState>, resumeOnAudioFocus: bool)
    ensures HostReports(PauseEvents(position, shown, published, resumeOnAudioFocus)) == [OnPaused]
  {
    var changed := published != Some(Paused);
    PausedReportsOnce(position, shown, changed);
    if !resumeOnAudioFocus {
      HostReportsOne(FocusAbandoned);
      HostReportsAppend([PlayerPause] + PublishEvents(Paused, position, shown, changed) + [OnPaused], [FocusAbandoned]);
    }
  }

  /** stop reports onStopped to the host, once. */
  lemma StopReportsOnce()
    ensures HostReports(StopEvents) == [OnStopped]
  {
    var before, after := StopEvents[..4], StopEvents[5..];
    assert StopEvents == before + [OnStopped] + after;
    NoHostReports(before);
    NoHostReports(after);
    HostReportsOne(OnStopped);
    HostReportsAppend(before, [OnStopped]);
    HostReportsAppend(before + [OnStopped], after);
  }

  /** A seek reports what the resume after it reports: onResumed, once. */
  lemma SeekReportsOnce(millis: int, position: int, shown: bool, published: Option<PlaybackState>)
    ensures HostReports(SeekEvents(millis, position, shown, published)) == [OnResumed]
  {
    HostReportsAppend([PlayerSeekTo(millis)], ResumeEvents(position, shown, published));
    ResumeReportsOnce(position, shown, published);
  }

  /** resume starts the foreground service exactly when the notification is
      shown and PLAYING was not the state last published; otherwise a shown
      notification is only re-notified. */
  lemma ResumeForeground(position: int, shown: bool, published: Option<PlaybackState>)
    ensures StartForeground in ResumeEvents(position, shown, published) <==> shown && published != Some(Playing)
    ensures Notify in ResumeEvents(position, shown, published) <==> shown && published == Some(Playing)
  {
    var changed := published != Some(Playing);
    var p := PublishEvents(Playing, position, shown, changed);
    PublishPolicy(Playing, position, shown, changed);
    assert ResumeEvents(position, shown, published) == [FocusRequested, PlayerResume] + p + [OnResumed];
  }

  /** pause gives up audio focus exactly when it is not waiting to resume
      after a transient loss; with the notification shown it always leaves
      the foreground, keeping the notification. */
  lemma PauseFocus(position: int, shown: bool, published: Option<PlaybackState>, resumeOnAudioFocus: bool)
    ensures FocusAbandoned in PauseEvents(position, shown, published, resumeOnAudioFocus) <==> !resumeOnAudioFocus
    ensures StopForeground(false) in PauseEvents(position, shown, published, resumeOnAudioFocus) <==> shown
    ensures StartForeground !in PauseEvents(position, shown, published, resumeOnAudioFocus)
  {
    var changed := published != Some(Paused);
    var p := PublishEvents(Paused, position, shown, changed);
    PublishPolicy(Paused, position, shown, changed);
    assert FocusAbandoned !in p;
    var paused := [PlayerPause] + p + [OnPaused];
    assert FocusAbandoned !in paused && StartForeground !in paused;
    assert StopForeground(false) in paused <==> shown;
  }

  /** A transient loss of focus while playing pauses without giving up the
      focus request (the pause it runs sees the flag already set, so it logs
      no FocusAbandoned) and leaves the service PAUSED; the focus coming back
      then resumes, ends PLAYING and clears the flag. */
  lemma TransientLossRoundTrip(position: int, duration: int, shown: bool, published: Option<PlaybackState>,
                               resumeOnAudioFocus: bool)
    ensures var loss := FocusDecision(AudioFocusLossTransient, resumeOnAudioFocus, true);
      && loss == (Some(Pause), true)
      && FocusAbandoned !in CommandEvents(Pause, position, duration, shown, published, loss.1)
      && var gain := FocusDecision(AudioFocusGain, loss.1, StateAfter(Playing, Pause, position, duration) == Playing);
      && gain == (Some(Resume), false)
      && StateAfter(Paused, Resume, position, duration) == Playing
  {
    PauseFocus(position, shown, published, true);
  }

  // ---------------------------------------------------------------------------
  // The service

  class AudioService {
    var currentPlaybackState: PlaybackState
    /** The state updatePlaybackState last published; None stands for the
        Int.MIN_VALUE it starts from, which is no state at all. */
    var oldPlaybackState: Option<PlaybackState>
    var currentPositionInMillis: int
    var durationInMillis: int
    var resumeOnAudioFocus: bool
    var isNotificationShown: bool

    /** MediaSessionCompat.isActive */
    ghost var sessionActive: bool
    /** The service has called startForeground and not stopForeground since. */
    ghost var inForeground: bool
    /** The service has requested audio focus and not abandoned it since. */
    ghost var focusRequested: bool
    /** Notification images still loading (the Glide path of showNotification). */
    ghost var pendingImages: nat
    ghost var log: seq<Event>

    /** The foreground goes with the notification: in the foreground only with
        the notification shown, and in it whenever the notification is shown
        and PLAYING was last published. Any state but STOPPED has been
        published, and the service plays only while it holds a focus request. */
    ghost predicate Valid()
      reads this
    {
      (inForeground ==> isNotificationShown) &&
      (isNotificationShown && oldPlaybackState == Some(Playing) ==> inForeground) &&
      (currentPlaybackState != Stopped ==> oldPlaybackState == Some(currentPlaybackState)) &&
      (currentPlaybackState == Playing ==> focusRequested)
    }

    constructor ()
      ensures Valid()
      ensures currentPlaybackState == Stopped && oldPlaybackState == None
      ensures currentPositionInMillis == 0 && durationInMillis == 0
      ensures !resumeOnAudioFocus && !isNotificationShown
      ensures !sessionActive && !inForeground && !focusRequested && pendingImages == 0 && log == []
    {
      currentPlaybackState, oldPlaybackState := Stopped, None;
      currentPositionInMillis, durationInMillis := 0, 0;
      resumeOnAudioFocus, isNotificationShown := false, false;
      sessionActive, inForeground, focusRequested, pendingImages, log := false, false, false, 0, [];
    }

    /** play: requests focus, hands the url and the looping flag to the player,
        activates the session, becomes PLAYING, publishes that state, then shows
        the notification (at once when there is no image, after the image has
        loaded otherwise). */
    method Play(url: string, imageUrl: Option<string>, isLooping: Option<bool>)
      requires Valid()
      modifies this
      ensures Valid()
      ensures currentPlaybackState == Playing && oldPlaybackState == Some(Playing)
      ensures sessionActive && focusRequested
      ensures log == old(log) + [FocusRequested, PlayerPlayLooping(url, isLooping), SessionActive(true)]
                   + PublishEvents(Playing, old(currentPositionInMillis), old(isNotificationShown),
                                   old(oldPlaybackState) != Some(Playing))
                   + (if IsNullOrBlank(imageUrl) then [StartForeground] else [])
      ensures isNotificationShown == (old(isNotificationShown) || IsNullOrBlank(imageUrl))
      ensures inForeground == isNotificationShown
      ensures pendingImages == old(pendingImages) + (if IsNullOrBlank(imageUrl) then 0 else 1)
      ensures resumeOnAudioFocus == old(resumeOnAudioFocus)
      ensures currentPositionInMillis == old(currentPositionInMillis) && durationInMillis == old(durationInMillis)
    {
      log := log + [FocusRequested, PlayerPlayLooping(url, isLooping), SessionActive(true)];
      focusRequested, sessionActive, currentPlaybackState := true, true, Playing;
      UpdatePlaybackState();
      BlankUnlessSome(imageUrl);
      ShowNotification(Some(imageUrl.GetOr("")));
    }

    /** resume: whatever the state before, ends PLAYING, holding a focus
        request, in the foreground exactly when the notification is shown. */
    method Resume()
      requires Valid()
      modifies this
      ensures Valid()
      ensures currentPlaybackState == Playing && focusRequested
      ensures log == old(log) + ResumeEvents(old(currentPositionInMillis), old(isNotificationShown), old(oldPlaybackState))
      ensures inForeground == isNotificationShown
      ensures isNotificationShown == old(isNotificationShown) && sessionActive == old(sessionActive)
      ensures resumeOnAudioFocus == old(resumeOnAudioFocus) && pendingImages == old(pendingImages)
      ensures currentPositionInMillis == old(currentPositionInMillis) && durationInMillis == old(durationInMillis)
    {
      ghost var before := log;
      ghost var published := PublishEvents(Playing, currentPositionInMillis, isNotificationShown, oldPlaybackState != Some(Playing));
      log := log + [FocusRequested, PlayerResume];
      focusRequested, currentPlaybackState := true, Playing;
      UpdatePlaybackState();
      log := log + [OnResumed];
      AppendPieces(before, [FocusRequested, PlayerResume], published, [OnResumed]);
    }

    /** pause: whatever the state before, ends PAUSED and out of the
        foreground; the focus request is kept only while resumeOnAudioFocus
        is set. */
    method Pause()
      requires Valid()
      modifies this
      ensures Valid()
      ensures currentPlaybackState == Paused && !inForeground
      ensures focusRequested == (old(focusRequested) && resumeOnAudioFocus)
      ensures log == old(log) + PauseEvents(old(currentPositionInMillis), old(isNotificationShown),
                                            old(oldPlaybackState), resumeOnAudioFocus)
      ensures isNotificationShown == old(isNotificationShown) && sessionActive == old(sessionActive)
      ensures resumeOnAudioFocus == old(resumeOnAudioFocus) && pendingImages == old(pendingImages)
      ensures currentPositionInMillis == old(currentPositionInMillis) && durationInMillis == old(durationInMillis)
    {
      ghost var before := log;
      ghost var published := PublishEvents(Paused, currentPositionInMillis, isNotificationShown, oldPlaybackState != Some(Paused));
      log := log + [PlayerPause];
      currentPlaybackState := Paused;
      UpdatePlaybackState();
      log := log + [OnPaused];
      AppendPieces(before, [PlayerPause], published, [OnPaused]);
      if !resumeOnAudioFocus {
        log := log + [FocusAbandoned];
        focusRequested := false;
      }
    }

    /** stop: ends STOPPED with the notification gone, out of the foreground,
        the session inactive and no focus request; the stopped state itself is
        never published. */
    method Stop()
      requires Valid()
      modifies this
      ensures Valid()
      ensures currentPlaybackState == Stopped && oldPlaybackState == old(oldPlaybackState)
      ensures !isNotificationShown && !inForeground && !sessionActive && !focusRequested
      ensures log == old(log) + StopEvents
      ensures resumeOnAudioFocus == old(resumeOnAudioFocus) && pendingImages == old(pendingImages)
      ensures currentPositionInMillis == old(currentPositionInMillis) && durationInMillis == old(durationInMillis)
    {
      log := log + [PlayerStop];
      currentPlaybackState := Stopped;
      CancelNotification();
      sessionActive := false;
      log := log + [SessionActive(false), OnStopped];
      log := log + [FocusAbandoned];
      focusRequested := false;
      log := log + [StopSelf];
    }

    /** seekTo: moves the player, then resumes, so a seek always ends PLAYING. */
    method SeekTo(timeInMillis: int)
      requires Valid()
      modifies this
      ensures Valid()
      ensures currentPlaybackState == Playing && focusRequested
      ensures log == old(log) + SeekEvents(timeInMillis, old(currentPositionInMillis), old(isNotificationShown),
                                           old(oldPlaybackState))
      ensures inForeground == isNotificationShown
      ensures isNotificationShown == old(isNotificationShown) && sessionActive == old(sessionActive)
      ensures resumeOnAudioFocus == old(resumeOnAudioFocus) && pendingImages == old(pendingImages)
      ensures currentPositionInMillis == old(currentPositionInMillis) && durationInMillis == old(durationInMillis)
    {
      log := log + [PlayerSeekTo(timeInMillis)];
      Resume();
    }

    /** forward30: seeks 30 s ahead (and so resumes) only when more than 30 s
        are left. */
    method Forward30()
      requires Valid()
      modifies this
      ensures Valid()
      ensures log == old(log) + CommandEvents(Command.Forward30, old(currentPositionInMillis), old(durationInMillis),
                                              old(isNotificationShown), old(oldPlaybackState), old(resumeOnAudioFocus))
      ensures currentPlaybackState == StateAfter(old(currentPlaybackState), Command.Forward30,
                                                 old(currentPositionInMillis), old(durationInMillis))
      ensures isNotificationShown == old(isNotificationShown) && sessionActive == old(sessionActive)
      ensures resumeOnAudioFocus == old(resumeOnAudioFocus) && pendingImages == old(pendingImages)
      ensures currentPositionInMillis == old(currentPositionInMillis) && durationInMillis == old(durationInMillis)
      ensures ForwardTarget(old(currentPositionInMillis), old(durationInMillis)).Some? ==> focusRequested && inForeground == isNotificationShown
      ensures ForwardTarget(old(currentPositionInMillis), old(durationInMillis)).None? ==> unchanged(this)
    {
      var target := ForwardTarget(currentPositionInMillis, durationInMillis);
      if target.Some? {
        SeekTo(target.value);
      }
    }

    /** rewind30: seeks 30 s back (and so resumes) only when more than 30 s
        have been played. */
    method Rewind30()
      requires Valid()
      modifies this
      ensures Valid()
      ensures log == old(log) + CommandEvents(Command.Rewind30, old(currentPositionInMillis), old(durationInMillis),
                                              old(isNotificationShown), old(oldPlaybackState), old(resumeOnAudioFocus))
      ensures currentPlaybackState == StateAfter(old(currentPlaybackState), Command.Rewind30,
                                                 old(currentPositionInMillis), old(durationInMillis))
      ensures isNotificationShown == old(isNotificationShown) && sessionActive == old(sessionActive)
      ensures resumeOnAudioFocus == old(resumeOnAudioFocus) && pendingImages == old(pendingImages)
      ensures currentPositionInMillis == old(currentPositionInMillis) && durationInMillis == old(durationInMillis)
      ensures RewindTarget(old(currentPositionInMillis)).Some? ==> focusRequested && inForeground == isNotificationShown
      ensures RewindTarget(old(currentPositionInMillis)).None? ==> unchanged(this)
    {
      var target := RewindTarget(currentPositionInMillis);
      if target.Some? {
        SeekTo(target.value);
      }
    }

    /** The media-session callback: runs the command the callback maps to. */
    method OnSessionCallback(cb: SessionCallback)
      requires Valid()
      modifies this
      ensures Valid()
      ensures currentPlaybackState == StateAfter(old(currentPlaybackState), CommandFor(cb),
                                                 old(currentPositionInMillis), old(durationInMillis))
      ensures log == old(log) + CommandEvents(CommandFor(cb), old(currentPositionInMillis), old(durationInMillis),
                                              old(isNotificationShown), old(oldPlaybackState), old(resumeOnAudioFocus))
      ensures resumeOnAudioFocus == old(resumeOnAudioFocus) && pendingImages == old(pendingImages)
      ensures currentPositionInMillis == old(currentPositionInMillis) && durationInMillis == old(durationInMillis)
      ensures CommandFor(cb) == Command.Stop ==>
        !isNotificationShown && !inForeground && !sessionActive && !focusRequested && oldPlaybackState == old(oldPlaybackState)
      ensures CommandFor(cb) != Command.Stop ==>
        isNotificationShown == old(isNotificationShown) && sessionActive == old(sessionActive)
      ensures CommandFor(cb) == Command.Pause ==> !inForeground && focusRequested == (old(focusRequested) && resumeOnAudioFocus)
      ensures Resumes(CommandFor(cb), old(currentPositionInMillis), old(durationInMillis)) ==>
        focusRequested && inForeground == isNotificationShown
      ensures (CommandFor(cb) != Command.Stop && CommandFor(cb) != Command.Pause &&
               !Resumes(CommandFor(cb), old(currentPositionInMillis), old(durationInMillis))) ==> unchanged(this)
    {
      match CommandFor(cb)
      case Resume => Resume();
      case Pause => Pause();
      case Stop => Stop();
      case SeekTo(t) => SeekTo(t);
      case Forward30 => Forward30();
      case Rewind30 => Rewind30();
    }

    /** The audio-focus listener: runs the command FocusDecision picks, with
        resumeOnAudioFocus updated as it says (before a pause, after a resume). */
    method OnAudioFocusChange(focusChange: int)
      requires Valid()
      modifies this
      ensures Valid()
      ensures var d := FocusDecision(focusChange, old(resumeOnAudioFocus), old(currentPlaybackState) == Playing);
        && resumeOnAudioFocus == d.1
        && log == old(log) + (match d.0
                              case None => []
                              case Some(c) => CommandEvents(c, old(currentPositionInMillis), old(durationInMillis),
                                                            old(isNotificationShown), old(oldPlaybackState), d.1))
        && currentPlaybackState == (match d.0
                                    case None => old(currentPlaybackState)
                                    case Some(c) => StateAfter(old(currentPlaybackState), c,
                                                               old(currentPositionInMillis), old(durationInMillis)))
      ensures currentPositionInMillis == old(currentPositionInMillis) && durationInMillis == old(durationInMillis)
      ensures pendingImages == old(pendingImages)
      ensures var d := FocusDecision(focusChange, old(resumeOnAudioFocus), old(currentPlaybackState) == Playing);
        && (d.0.None? ==> unchanged(this))
        && (d.0 == Some(Command.Stop) ==>
              !isNotificationShown && !inForeground && !sessionActive && !focusRequested &&
              oldPlaybackState == old(oldPlaybackState))
        && (d.0 != Some(Command.Stop) ==> isNotificationShown == old(isNotificationShown) && sessionActive == old(sessionActive))
        && (d.0 == Some(Command.Pause) ==> !inForeground && focusRequested == old(focusRequested))
        && (d.0 == Some(Command.Resume) ==> focusRequested && inForeground == isNotificationShown)
    {
      if focusChange == AudioFocusGain {
        if resumeOnAudioFocus && currentPlaybackState != Playing {
          Resume();
          resumeOnAudioFocus := false;
        }
      } else if focusChange == AudioFocusLossTransientCanDuck {
      } else if focusChange == AudioFocusLossTransient {
        if currentPlaybackState == Playing {
          resumeOnAudioFocus := true;
          Pause();
        }
      } else if focusChange == AudioFocusLoss {
        resumeOnAudioFocus := false;
        Stop();
      }
    }

    /** The headset receiver's onDisconnected pauses; onConnected does nothing. */
    method OnHeadsetBroadcast(isInitialStickyBroadcast: bool, extras: map<string, ExtraValue>)
      requires Valid()
      modifies this
      ensures Valid()
      ensures Headset.OnReceive(isInitialStickyBroadcast, extras) == Some(Disconnected) ==>
        currentPlaybackState == Paused &&
        log == old(log) + PauseEvents(old(currentPositionInMillis), old(isNotificationShown),
                                      old(oldPlaybackState), old(resumeOnAudioFocus))
      ensures Headset.OnReceive(isInitialStickyBroadcast, extras) == Some(Disconnected) ==>
        !inForeground && focusRequested == (old(focusRequested) && old(resumeOnAudioFocus)) &&
        isNotificationShown == old(isNotificationShown) && sessionActive == old(sessionActive)
      ensures Headset.OnReceive(isInitialStickyBroadcast, extras) != Some(Disconnected) ==> unchanged(this)
      ensures resumeOnAudioFocus == old(resumeOnAudioFocus) && pendingImages == old(pendingImages)
      ensures currentPositionInMillis == old(currentPositionInMillis) && durationInMillis == old(durationInMillis)
    {
      if Headset.OnReceive(isInitialStickyBroadcast, extras) == Some(Disconnected) {
        Pause();
      }
    }

    /** The Bluetooth receiver's onDisconnected pauses; onConnected does nothing. */
    method OnBluetoothBroadcast(action: Option<string>, extras: Option<map<string, ExtraValue>>)
      requires Valid()
      modifies this
      ensures Valid()
      ensures Bluetooth.OnReceive(action, extras) == Some(Disconnected) ==>
        currentPlaybackState == Paused &&
        log == old(log) + PauseEvents(old(currentPositionInMillis), old(isNotificationShown),
                                      old(oldPlaybackState), old(resumeOnAudioFocus))
      ensures Bluetooth.OnReceive(action, extras) == Some(Disconnected) ==>
        !inForeground && focusRequested == (old(focusRequested) && old(resumeOnAudioFocus)) &&
        isNotificationShown == old(isNotificationShown) && sessionActive == old(sessionActive)
      ensures Bluetooth.OnReceive(action, extras) != Some(Disconnected) ==> unchanged(this)
      ensures resumeOnAudioFocus == old(resumeOnAudioFocus) && pendingImages == old(pendingImages)
      ensures currentPositionInMillis == old(currentPositionInMillis) && durationInMillis == old(durationInMillis)
    {
      if Bluetooth.OnReceive(action, extras) == Some(Disconnected) {
        Pause();
      }
    }

    /** The player's onLoaded: store the duration, report it to the host, and
        publish it in the session metadata. */
    method PlayerLoaded(duration: int)
      requires Valid()
      modifies this
      ensures Valid()
      ensures durationInMillis == duration
      ensures log == old(log) + [OnLoaded(duration), SessionDuration(duration)]
      ensures currentPlaybackState == old(currentPlaybackState) && oldPlaybackState == old(oldPlaybackState)
      ensures currentPositionInMillis == old(currentPositionInMillis)
      ensures isNotificationShown == old(isNotificationShown) && sessionActive == old(sessionActive)
      ensures inForeground == old(inForeground) && focusRequested == old(focusRequested)
      ensures resumeOnAudioFocus == old(resumeOnAudioFocus) && pendingImages == old(pendingImages)
    {
      durationInMillis := duration;
      log := log + [OnLoaded(duration), SessionDuration(duration)];
    }

    /** The player's onProgressChanged: store the position first, report it,
        then publish the playback state with that position. */
    method PlayerProgressChanged(position: int)
      requires Valid()
      modifies this
      ensures Valid()
      ensures currentPositionInMillis == position
      ensures log == old(log) + [OnProgressChanged(position)]
                   + PublishEvents(currentPlaybackState, position, isNotificationShown,
                                   old(oldPlaybackState) != Some(currentPlaybackState))
      ensures oldPlaybackState == Some(currentPlaybackState)
      ensures currentPlaybackState == old(currentPlaybackState) && durationInMillis == old(durationInMillis)
      ensures isNotificationShown == old(isNotificationShown) && sessionActive == old(sessionActive)
      ensures isNotificationShown ==> inForeground == (currentPlaybackState == Playing)
      ensures !isNotificationShown ==> !inForeground
      ensures focusRequested == old(focusRequested)
      ensures resumeOnAudioFocus == old(resumeOnAudioFocus) && pendingImages == old(pendingImages)
    {
      currentPositionInMillis := position;
      log := log + [OnProgressChanged(position)];
      UpdatePlaybackState();
    }

    /** The player's onCompleted: only reported to the host. */
    method PlayerCompleted()
      requires Valid()
      modifies this
      ensures Valid()
      ensures log == old(log) + [OnCompleted]
      ensures currentPlaybackState == old(currentPlaybackState) && oldPlaybackState == old(oldPlaybackState)
      ensures currentPositionInMillis == old(currentPositionInMillis) && durationInMillis == old(durationInMillis)
      ensures isNotificationShown == old(isNotificationShown) && sessionActive == old(sessionActive)
      ensures inForeground == old(inForeground) && focusRequested == old(focusRequested)
      ensures resumeOnAudioFocus == old(resumeOnAudioFocus) && pendingImages == old(pendingImages)
    {
      log := log + [OnCompleted];
    }

    /** onDestroy: releases the player. */
    method Destroy()
      requires Valid()
      modifies this
      ensures Valid()
      ensures log == old(log) + [PlayerRelease]
      ensures currentPlaybackState == old(currentPlaybackState) && oldPlaybackState == old(oldPlaybackState)
      ensures currentPositionInMillis == old(currentPositionInMillis) && durationInMillis == old(durationInMillis)
      ensures isNotificationShown == old(isNotificationShown) && sessionActive == old(sessionActive)
      ensures inForeground == old(inForeground) && focusRequested == old(focusRequested)
      ensures resumeOnAudioFocus == old(resumeOnAudioFocus) && pendingImages == old(pendingImages)
    {
      log := log + [PlayerRelease];
    }

    /** A notification image has loaded (or failed to): the notification goes
        up in the foreground, whatever the playback state is by then. */
    method NotificationImageReady()
      requires Valid() && pendingImages > 0
      modifies this
      ensures Valid()
      ensures isNotificationShown && inForeground
      ensures log == old(log) + [StartForeground]
      ensures pendingImages == old(pendingImages) - 1
      ensures currentPlaybackState == old(currentPlaybackState) && oldPlaybackState == old(oldPlaybackState)
      ensures sessionActive == old(sessionActive) && focusRequested == old(focusRequested)
      ensures resumeOnAudioFocus == old(resumeOnAudioFocus)
      ensures currentPositionInMillis == old(currentPositionInMillis) && durationInMillis == old(durationInMillis)
    {
      log := log + [StartForeground];
      inForeground := true;
      isNotificationShown := true;
      pendingImages := pendingImages - 1;
    }

    /** showNotification: without an image the notification is put up in the
        foreground at once; with one, once the image has loaded. */
    method ShowNotification(imageUrl: Option<string>)
      requires inForeground ==> isNotificationShown
      modifies this
      ensures inForeground ==> isNotificationShown
      ensures IsNullOrBlank(imageUrl) ==>
        isNotificationShown && inForeground && log == old(log) + [StartForeground] && pendingImages == old(pendingImages)
      ensures !IsNullOrBlank(imageUrl) ==>
        isNotificationShown == old(isNotificationShown) && inForeground == old(inForeground) &&
        log == old(log) && pendingImages == old(pendingImages) + 1
      ensures currentPlaybackState == old(currentPlaybackState) && oldPlaybackState == old(oldPlaybackState)
      ensures sessionActive == old(sessionActive) && focusRequested == old(focusRequested)
      ensures resumeOnAudioFocus == old(resumeOnAudioFocus)
      ensures currentPositionInMillis == old(currentPositionInMillis) && durationInMillis == old(durationInMillis)
    {
      if IsNullOrBlank(imageUrl) {
        log := log + [StartForeground];
        inForeground := true;
        isNotificationShown := true;
      } else {
        pendingImages := pendingImages + 1;
      }
    }

    /** cancelNotification: leaves the foreground, removing the notification,
        and cancels it. */
    method CancelNotification()
      modifies this
      ensures !isNotificationShown && !inForeground
      ensures log == old(log) + [StopForeground(true), NotificationCancelled]
      ensures currentPlaybackState == old(currentPlaybackState) && oldPlaybackState == old(oldPlaybackState)
      ensures sessionActive == old(sessionActive) && focusRequested == old(focusRequested)
      ensures resumeOnAudioFocus == old(resumeOnAudioFocus) && pendingImages == old(pendingImages)
      ensures currentPositionInMillis == old(currentPositionInMillis) && durationInMillis == old(durationInMillis)
    {
      log := log + [StopForeground(true)];
      inForeground := false;
      log := log + [NotificationCancelled];
      isNotificationShown := false;
    }

    /** updatePlaybackState: publishes the state and position to the session;
        with the notification shown, enters the foreground on a change to
        PLAYING, re-notifies while still PLAYING, and otherwise leaves the
        foreground and re-notifies; in every case it records the state as the
        one last published. */
    method UpdatePlaybackState()
      requires inForeground ==> isNotificationShown
      requires isNotificationShown && oldPlaybackState == Some(Playing) ==> inForeground
      modifies this
      ensures log == old(log) + PublishEvents(currentPlaybackState, currentPositionInMillis, isNotificationShown,
                                              old(oldPlaybackState) != Some(currentPlaybackState))
      ensures oldPlaybackState == Some(currentPlaybackState)
      ensures inForeground == if isNotificationShown then currentPlaybackState == Playing else old(inForeground)
      ensures currentPlaybackState == old(currentPlaybackState) && isNotificationShown == old(isNotificationShown)
      ensures currentPositionInMillis == old(currentPositionInMillis) && durationInMillis == old(durationInMillis)
      ensures sessionActive == old(sessionActive) && focusRequested == old(focusRequested)
      ensures resumeOnAudioFocus == old(resumeOnAudioFocus) && pendingImages == old(pendingImages)
    {
      var stateChanged := oldPlaybackState != Some(currentPlaybackState);
      var session := SessionPlaybackState(currentPlaybackState, currentPositionInMillis);
      if !isNotificationShown {
        log := log + [session];
      } else if currentPlaybackState == Playing && stateChanged {
        log := log + [session, NotificationButtons(true), NotificationOngoing(true), StartForeground];
        inForeground := true;
      } else if currentPlaybackState == Playing {
        log := log + [session, NotificationButtons(true), NotificationOngoing(true), Notify];
      } else {
        log := log + [session, NotificationButtons(false), NotificationOngoing(false), StopForeground(false), Notify];
        inForeground := false;
      }
      oldPlaybackState := Some(currentPlaybackState);
    }
  }
}
