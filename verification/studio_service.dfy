/** The studio.darngood variant of the playback service: the older, simpler
    session controller. It has no audio-focus handling, its seekTo only moves the
    player, and its stop publishes the stopped state before it cancels the
    notification. The MediaPlayer wrapper, the media session, the notification
    manager and the foreground-service state are collaborators: the service's
    calls into them, and its calls back to the host, go to a ghost event log. */
module StudioService {
  import opened Media

  /** The playback state the service is left in by a session command: resume,
      pause and stop set it; seeks and skips only move the player. */
  function StateAfter(s: PlaybackState, c: Command): PlaybackState {
    match c
    case Resume => Playing
    case Pause => Paused
    case Stop => Stopped
    case _ => s
  }

  /** The state after a sequence of commands. */
  function Run(s: PlaybackState, cs: seq<Command>): PlaybackState
    decreases |cs|
  {
    if cs == [] then s else Run(StateAfter(s, cs[0]), cs[1..])
  }

  /** Seeks and skips leave the playback state alone. */
  predicate KeepsState(c: Command) {
    c.SeekTo? || c == Forward30 || c == Rewind30
  }

  lemma {:induction false} RunAppend(s: PlaybackState, a: seq<Command>, b: seq<Command>)
    ensures Run(s, a + b) == Run(Run(s, a), b)
    decreases |a|
  {
    if a == [] {
      assert a + b == b;
    } else {
      assert (a + b)[0] == a[0];
      assert (a + b)[1..] == a[1..] + b;
      RunAppend(StateAfter(s, a[0]), a[1..], b);
    }
  }

  /** Any run of seeks and skips keeps the state it starts from. */
  lemma {:induction false} RunKeeping(s: PlaybackState, cs: seq<Command>)
    requires forall i :: 0 <= i < |cs| ==> KeepsState(cs[i])
    ensures Run(s, cs) == s
    decreases |cs|
  {
    if cs != [] {
      assert KeepsState(cs[0]);
      RunKeeping(s, cs[1..]);
    }
  }

  /** Whatever the state before, the last resume, pause or stop of a sequence
      decides the state after it: seeks and skips that follow it change nothing. */
  lemma LastSetterWins(s: PlaybackState, cs: seq<Command>, k: nat)
    requires k < |cs| && !KeepsState(cs[k])
    requires forall i :: k < i < |cs| ==> KeepsState(cs[i])
    ensures cs[k] == Resume ==> Run(s, cs) == Playing
    ensures cs[k] == Pause ==> Run(s, cs) == Paused
    ensures cs[k] == Stop ==> Run(s, cs) == Stopped
  {
    var before, after := cs[..k], cs[k + 1..];
    assert cs == before + [cs[k]] + after;
    RunAppend(s, before + [cs[k]], after);
    RunAppend(s, before, [cs[k]]);
    RunKeeping(Run(s, before + [cs[k]]), after);
  }

  /** For any non-empty sequence of pauses and resumes, the state afterwards is
      the one the last call asked for. */
  lemma LastPauseOrResumeWins(s: PlaybackState, cs: seq<Command>)
    requires cs != []
    requires forall i :: 0 <= i < |cs| ==> cs[i] == Pause || cs[i] == Resume
    ensures Run(s, cs) == if cs[|cs| - 1] == Pause then Paused else Playing
  {
    LastSetterWins(s, cs, |cs| - 1);
  }

  /** What stop does after publishing the stopped state: cancels the
      notification, deactivates the session and reports onStopped. */
  const StopTail: seq<Event> := [NotificationCancelled, SessionActive(false), OnStopped]

  /** The events a session command appends to the service's log, given the
      position, the duration and whether the notification is shown when it
      starts. */
  function CommandEvents(c: Command, position: int, duration: int, shown: bool): seq<Event> {
    match c
    case Resume =>
      [PlayerResume] + PublishEvents(Playing, position, shown, true) + [OnResumed]
    case Pause =>
      [PlayerPause] + PublishEvents(Paused, position, shown, true) + [OnPaused]
    case Stop =>
      [PlayerStop] + PublishEvents(Stopped, position, shown, true) + StopTail
    case SeekTo(t) => [PlayerSeekTo(t)]
    case Forward30 =>
      (match ForwardTarget(position, duration)
       case Some(t) => [PlayerSeekTo(t)]
       case None => [])
    case Rewind30 =>
      (match RewindTarget(position)
       case Some(t) => [PlayerSeekTo(t)]
       case None => [])
  }

  /** resume reports onResumed to the host, once. */
  lemma ResumeReportsOnce(position: int, duration: int, shown: bool)
    ensures HostReports(CommandEvents(Resume, position, duration, shown)) == [OnResumed]
  {
    HostReportsOne(PlayerResume);
    HostReportsOne(OnResumed);
    ReportsAround([PlayerResume], Playing, position, shown, true, [OnResumed]);
  }

  /** pause reports onPaused to the host, once. */
  lemma PauseReportsOnce(position: int, duration: int, shown: bool)
    ensures HostReports(CommandEvents(Pause, position, duration, shown)) == [OnPaused]
  {
    HostReportsOne(PlayerPause);
    HostReportsOne(OnPaused);
    ReportsAround([PlayerPause], Paused, position, shown, true, [OnPaused]);
  }

  /** stop reports onStopped to the host, once, after the notification is
      gone. */
  lemma StopReportsOnce(position: int, duration: int, shown: bool)
    ensures HostReports(CommandEvents(Stop, position, duration, shown)) == [OnStopped]
  {
    HostReportsOne(PlayerStop);
    StopTailReports();
    ReportsAround([PlayerStop], Stopped, position, shown, true, StopTail);
  }

  /** Of stop's tail, the host hears only onStopped. */
  lemma StopTailReports()
    ensures HostReports(StopTail) == [OnStopped]
  {
    assert StopTail[..2][..1] == [NotificationCancelled];
    assert StopTail[..2][..1][..0] == [];
  }

  /** Seeks and skips only move the player (at most once) and report nothing
      to the host. */
  lemma SeeksReportNothing(c: Command, position: int, duration: int, shown: bool)
    requires KeepsState(c)
    ensures |CommandEvents(c, position, duration, shown)| <= 1
    ensures forall e :: e in CommandEvents(c, position, duration, shown) ==> e.PlayerSeekTo?
    ensures HostReports(CommandEvents(c, position, duration, shown)) == []
  {
    var cs := CommandEvents(c, position, duration, shown);
    assert forall e :: e in cs ==> e.PlayerSeekTo?;
    NoHostReports(cs);
  }

  class AudioService {
    var currentPlaybackState: PlaybackState
    var currentPositionInMillis: int
    var durationInMillis: int
    var isNotificationShown: bool

    /** MediaSessionCompat.isActive */
    ghost var sessionActive: bool
    /** The service has called startForeground and not stopForeground since. */
    ghost var inForeground: bool
    /** Notification images still loading (the Glide path of showNotification). */
    ghost var pendingImages: nat
    ghost var log: seq<Event>

    /** The service is in the foreground only with its notification shown, and
        with the notification shown it is in the foreground whenever it plays. */
    ghost predicate Valid()
      reads this
    {
      (inForeground ==> isNotificationShown) &&
      (isNotificationShown && currentPlaybackState == Playing ==> inForeground)
    }

    constructor ()
      ensures Valid()
      ensures currentPlaybackState == Stopped && currentPositionInMillis == 0 && durationInMillis == 0
      ensures !isNotificationShown && !sessionActive && !inForeground && pendingImages == 0 && log == []
    {
      currentPlaybackState := Stopped;
      currentPositionInMillis, durationInMillis := 0, 0;
      isNotificationShown := false;
      sessionActive, inForeground, pendingImages, log := false, false, 0, [];
    }

    /** play: hands the url to the player, activates the session, becomes
        PLAYING, publishes that state, then shows the notification (at once when
        there is no image, after the image has loaded otherwise). */
    method Play(url: string, imageUrl: Option<string>)
      requires Valid()
      modifies this
      ensures Valid()
      ensures currentPlaybackState == Playing && sessionActive
      ensures log == old(log) + [PlayerPlay(url), SessionActive(true)]
                   + PublishEvents(Playing, old(currentPositionInMillis), old(isNotificationShown), true)
                   + (if IsNullOrBlank(imageUrl) then [StartForeground] else [])
      ensures isNotificationShown == (old(isNotificationShown) || IsNullOrBlank(imageUrl))
      ensures inForeground == isNotificationShown
      ensures pendingImages == old(pendingImages) + (if IsNullOrBlank(imageUrl) then 0 else 1)
      ensures currentPositionInMillis == old(currentPositionInMillis) && durationInMillis == old(durationInMillis)
    {
      log := log + [PlayerPlay(url), SessionActive(true)];
      sessionActive, currentPlaybackState := true, Playing;
      UpdatePlaybackState();
      BlankUnlessSome(imageUrl);
      ShowNotification(Some(imageUrl.GetOr("")));
    }

    /** resume: whatever the state before, ends PLAYING and reports onResumed once. */
    method Resume()
      requires Valid()
      modifies this
      ensures Valid()
      ensures currentPlaybackState == Playing
      ensures log == old(log) + CommandEvents(Command.Resume, old(currentPositionInMillis), old(durationInMillis), old(isNotificationShown))
      ensures inForeground == isNotificationShown
      ensures isNotificationShown == old(isNotificationShown) && sessionActive == old(sessionActive)
      ensures currentPositionInMillis == old(currentPositionInMillis) && durationInMillis == old(durationInMillis)
      ensures pendingImages == old(pendingImages)
    {
      ghost var before := log;
      ghost var published := PublishEvents(Playing, currentPositionInMillis, isNotificationShown, true);
      log := log + [PlayerResume];
      currentPlaybackState := Playing;
      UpdatePlaybackState();
      log := log + [OnResumed];
      AppendPieces(before, [PlayerResume], published, [OnResumed]);
    }

    /** pause: whatever the state before, ends PAUSED, out of the foreground,
        and reports onPaused once. */
    method Pause()
      requires Valid()
      modifies this
      ensures Valid()
      ensures currentPlaybackState == Paused && !inForeground
      ensures log == old(log) + CommandEvents(Command.Pause, old(currentPositionInMillis), old(durationInMillis), old(isNotificationShown))
      ensures isNotificationShown == old(isNotificationShown) && sessionActive == old(sessionActive)
      ensures currentPositionInMillis == old(currentPositionInMillis) && durationInMillis == old(durationInMillis)
      ensures pendingImages == old(pendingImages)
    {
      ghost var before := log;
      ghost var published := PublishEvents(Paused, currentPositionInMillis, isNotificationShown, true);
      log := log + [PlayerPause];
      currentPlaybackState := Paused;
      UpdatePlaybackState();
      log := log + [OnPaused];
      AppendPieces(before, [PlayerPause], published, [OnPaused]);
    }

    /** stop: ends STOPPED. The stopped state is published while the
        notification still counts as shown; only then is the notification
        cancelled, the session deactivated and onStopped reported. */
    method Stop()
      requires Valid()
      modifies this
      ensures Valid()
      ensures currentPlaybackState == Stopped
      ensures !isNotificationShown && !sessionActive && !inForeground
      ensures log == old(log) + CommandEvents(Command.Stop, old(currentPositionInMillis), old(durationInMillis), old(isNotificationShown))
      ensures currentPositionInMillis == old(currentPositionInMillis) && durationInMillis == old(durationInMillis)
      ensures pendingImages == old(pendingImages)
    {
      ghost var before := log;
      ghost var published := PublishEvents(Stopped, currentPositionInMillis, isNotificationShown, true);
      log := log + [PlayerStop];
      currentPlaybackState := Stopped;
      UpdatePlaybackState();
      ghost var afterPublish := log;
      CancelNotification();
      sessionActive := false;
      log := log + [SessionActive(false), OnStopped];
      AppendTwo(afterPublish, [NotificationCancelled], [SessionActive(false), OnStopped]);
      AppendPieces(before, [PlayerStop], published, StopTail);
    }

    /** seekTo: only asks the player to seek; the playback state, the session
        and the notification are left alone. */
    method SeekTo(timeInMillis: int)
      requires Valid()
      modifies this
      ensures Valid()
      ensures log == old(log) + [PlayerSeekTo(timeInMillis)]
      ensures currentPlaybackState == old(currentPlaybackState)
      ensures isNotificationShown == old(isNotificationShown) && sessionActive == old(sessionActive)
      ensures inForeground == old(inForeground) && pendingImages == old(pendingImages)
      ensures currentPositionInMillis == old(currentPositionInMillis) && durationInMillis == old(durationInMillis)
    {
      log := log + [PlayerSeekTo(timeInMillis)];
    }

    /** forward30: seeks 30 s ahead only when more than 30 s are left. */
    method Forward30()
      requires Valid()
      modifies this
      ensures Valid()
      ensures log == old(log) + CommandEvents(Command.Forward30, old(currentPositionInMillis), old(durationInMillis), old(isNotificationShown))
      ensures currentPlaybackState == old(currentPlaybackState)
      ensures isNotificationShown == old(isNotificationShown) && sessionActive == old(sessionActive)
      ensures inForeground == old(inForeground) && pendingImages == old(pendingImages)
      ensures currentPositionInMillis == old(currentPositionInMillis) && durationInMillis == old(durationInMillis)
    {
      var target := ForwardTarget(currentPositionInMillis, durationInMillis);
      if target.Some? {
        SeekTo(target.value);
      }
    }

    /** rewind30: seeks 30 s back only when more than 30 s have been played. */
    method Rewind30()
      requires Valid()
      modifies this
      ensures Valid()
      ensures log == old(log) + CommandEvents(Command.Rewind30, old(currentPositionInMillis), old(durationInMillis), old(isNotificationShown))
      ensures currentPlaybackState == old(currentPlaybackState)
      ensures isNotificationShown == old(isNotificationShown) && sessionActive == old(sessionActive)
      ensures inForeground == old(inForeground) && pendingImages == old(pendingImages)
      ensures currentPositionInMillis == old(currentPositionInMillis) && durationInMillis == old(durationInMillis)
    {
      var target := RewindTarget(currentPositionInMillis);
      if target.Some? {
        SeekTo(target.value);
      }
    }

    /** The media-session callback: runs the command the callback maps to. */
    method OnSessionCallback(cb: SessionCallback)
      requires Valid()
      modifies this
      ensures Valid()
      ensures currentPlaybackState == StateAfter(old(currentPlaybackState), CommandFor(cb))
      ensures log == old(log) + CommandEvents(CommandFor(cb), old(currentPositionInMillis), old(durationInMillis), old(isNotificationShown))
      ensures currentPositionInMillis == old(currentPositionInMillis) && durationInMillis == old(durationInMillis)
      ensures pendingImages == old(pendingImages)
      ensures CommandFor(cb) == Command.Stop ==> !isNotificationShown && !sessionActive && !inForeground
      ensures CommandFor(cb) != Command.Stop ==>
        isNotificationShown == old(isNotificationShown) && sessionActive == old(sessionActive)
      ensures CommandFor(cb) == Command.Pause ==> !inForeground
      ensures CommandFor(cb) == Command.Resume ==> inForeground == isNotificationShown
      ensures KeepsState(CommandFor(cb)) ==> inForeground == old(inForeground)
    {
      match CommandFor(cb)
      case Resume => Resume();
      case Pause => Pause();
      case Stop => Stop();
      case SeekTo(t) => SeekTo(t);
      case Forward30 => Forward30();
      case Rewind30 => Rewind30();
    }

    /** The player's onLoaded: store the duration, report it to the host, and
        publish it in the session metadata. */
    method PlayerLoaded(duration: int)
      requires Valid()
      modifies this
      ensures Valid()
      ensures durationInMillis == duration
      ensures log == old(log) + [OnLoaded(duration), SessionDuration(duration)]
      ensures currentPlaybackState == old(currentPlaybackState) && currentPositionInMillis == old(currentPositionInMillis)
      ensures isNotificationShown == old(isNotificationShown) && sessionActive == old(sessionActive)
      ensures inForeground == old(inForeground) && pendingImages == old(pendingImages)
    {
      durationInMillis := duration;
      log := log + [OnLoaded(duration), SessionDuration(duration)];
    }

    /** The player's onProgressChanged: store the position first, report it,
        then publish the playback state with that position. */
    method PlayerProgressChanged(position: int)
      requires Valid()
      modifies this
      ensures Valid()
      ensures currentPositionInMillis == position
      ensures log == old(log) + [OnProgressChanged(position)]
                   + PublishEvents(currentPlaybackState, position, isNotificationShown, true)
      ensures currentPlaybackState == old(currentPlaybackState) && durationInMillis == old(durationInMillis)
      ensures isNotificationShown == old(isNotificationShown) && sessionActive == old(sessionActive)
      ensures inForeground == (isNotificationShown && currentPlaybackState == Playing)
      ensures pendingImages == old(pendingImages)
    {
      currentPositionInMillis := position;
      log := log + [OnProgressChanged(position)];
      UpdatePlaybackState();
    }

    /** The player's onCompleted: only reported to the host. */
    method PlayerCompleted()
      requires Valid()
      modifies this
      ensures Valid()
      ensures log == old(log) + [OnCompleted]
      ensures currentPlaybackState == old(currentPlaybackState) && currentPositionInMillis == old(currentPositionInMillis)
      ensures durationInMillis == old(durationInMillis)
      ensures isNotificationShown == old(isNotificationShown) && sessionActive == old(sessionActive)
      ensures inForeground == old(inForeground) && pendingImages == old(pendingImages)
    {
      log := log + [OnCompleted];
    }

    /** A notification image has loaded (or failed to): the notification goes
        up in the foreground, whatever the playback state is by then. */
    method NotificationImageReady()
      requires Valid() && pendingImages > 0
      modifies this
      ensures Valid()
      ensures isNotificationShown && inForeground
      ensures log == old(log) + [StartForeground]
      ensures pendingImages == old(pendingImages) - 1
      ensures currentPlaybackState == old(currentPlaybackState) && sessionActive == old(sessionActive)
      ensures currentPositionInMillis == old(currentPositionInMillis) && durationInMillis == old(durationInMillis)
    {
      log := log + [StartForeground];
      inForeground := true;
      isNotificationShown := true;
      pendingImages := pendingImages - 1;
    }

    /** showNotification: without an image the notification is put up in the
        foreground at once; with one, once the image has loaded. */
    method ShowNotification(imageUrl: Option<string>)
      requires Valid()
      modifies this
      ensures Valid()
      ensures IsNullOrBlank(imageUrl) ==>
        isNotificationShown && inForeground && log == old(log) + [StartForeground] && pendingImages == old(pendingImages)
      ensures !IsNullOrBlank(imageUrl) ==>
        isNotificationShown == old(isNotificationShown) && inForeground == old(inForeground) &&
        log == old(log) && pendingImages == old(pendingImages) + 1
      ensures currentPlaybackState == old(currentPlaybackState) && sessionActive == old(sessionActive)
      ensures currentPositionInMillis == old(currentPositionInMillis) && durationInMillis == old(durationInMillis)
    {
      if IsNullOrBlank(imageUrl) {
        log := log + [StartForeground];
        inForeground := true;
        isNotificationShown := true;
      } else {
        pendingImages := pendingImages + 1;
      }
    }

    /** cancelNotification: cancels the notification; this variant does not
        call stopForeground here, so it relies on the service having left the
        foreground already. */
    method CancelNotification()
      modifies this
      ensures !isNotificationShown && inForeground == old(inForeground)
      ensures log == old(log) + [NotificationCancelled]
      ensures currentPlaybackState == old(currentPlaybackState) && sessionActive == old(sessionActive)
      ensures currentPositionInMillis == old(currentPositionInMillis) && durationInMillis == old(durationInMillis)
      ensures pendingImages == old(pendingImages)
    {
      log := log + [NotificationCancelled];
      isNotificationShown := false;
    }

    /** updatePlaybackState: publishes the state and position to the session;
        with the notification shown, goes to the foreground when PLAYING and
        otherwise leaves the foreground and re-notifies. */
    method UpdatePlaybackState()
      requires inForeground ==> isNotificationShown
      modifies this
      ensures Valid()
      ensures log == old(log) + PublishEvents(currentPlaybackState, currentPositionInMillis, isNotificationShown, true)
      ensures inForeground == if isNotificationShown then currentPlaybackState == Playing else old(inForeground)
      ensures currentPlaybackState == old(currentPlaybackState) && isNotificationShown == old(isNotificationShown)
      ensures currentPositionInMillis == old(currentPositionInMillis) && durationInMillis == old(durationInMillis)
      ensures sessionActive == old(sessionActive) && pendingImages == old(pendingImages)
    {
      var session := SessionPlaybackState(currentPlaybackState, currentPositionInMillis);
      if !isNotificationShown {
        log := log + [session];
      } else if currentPlaybackState == Playing {
        log := log + [session, NotificationButtons(true), NotificationOngoing(true), StartForeground];
        inForeground := true;
      } else {
        log := log + [session, NotificationButtons(false), NotificationOngoing(false), StopForeground(false), Notify];
        inForeground := false;
      }
    }
  }
}
