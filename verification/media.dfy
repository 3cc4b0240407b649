/** Vocabulary shared by the two variants of the Android playback service and by
    the two broadcast receivers: the playback states, the media-session callbacks
    and the commands they map to, the ±30 s skip targets, the intent extras, and
    the events the services leave in their (ghost) event log. */
module Media {

  datatype Option<+T> = None | Some(value: T) {
    function GetOr(default: T): T {
      match this
      case Some(v) => v
      case None => default
    }
  }

  /** The three PlaybackStateCompat codes the services use
      (STATE_STOPPED = 1, STATE_PAUSED = 2, STATE_PLAYING = 3). */
  datatype PlaybackState = Stopped | Paused | Playing

  // ---------------------------------------------------------------------------
  // Skips

  /** TimeUnit.SECONDS.toMillis(30): the step of forward30 and rewind30. */
  const SkipMillis: int := 30000

  /** Where forward30 seeks from `position` in a track of `duration` ms, if it
      seeks at all: only when more than 30 s are left, so the target always lies
      strictly inside the track. */
  function ForwardTarget(position: int, duration: int): (r: Option<int>)
    ensures r.Some? <==> duration - position > SkipMillis
    ensures r.Some? ==> r.value == position + SkipMillis && position < r.value < duration
  {
    if duration - position > SkipMillis then Some(position + SkipMillis) else None
  }

  /** Where rewind30 seeks from `position`, if it seeks at all: only when more
      than 30 s have been played, so the target is never zero or negative. */
  function RewindTarget(position: int): (r: Option<int>)
    ensures r.Some? <==> position > SkipMillis
    ensures r.Some? ==> r.value == position - SkipMillis && 0 < r.value < position
  {
    if position - SkipMillis > 0 then Some(position - SkipMillis) else None
  }

  // ---------------------------------------------------------------------------
  // Media session

  /** The MediaSessionCompat.Callback overrides both services install. */
  datatype SessionCallback =
    | OnPlay | OnPause | OnStop | OnSeekTo(pos: int)
    | OnSkipToNext | OnSkipToPrevious | OnFastForward | OnRewind

  /** The service commands a session callback can run. */
  datatype Command = Resume | Pause | Stop | SeekTo(millis: int) | Forward30 | Rewind30

  /** The command each session callback runs (the same table in both variants):
      both "next" and "fast forward" skip forward, both "previous" and "rewind"
      skip back, and play, pause, stop and seek run their namesakes. */
  function CommandFor(cb: SessionCallback): (c: Command)
    ensures c == Forward30 <==> cb == OnSkipToNext || cb == OnFastForward
    ensures c == Rewind30 <==> cb == OnSkipToPrevious || cb == OnRewind
    ensures c == Resume <==> cb == OnPlay
    ensures c == Pause <==> cb == OnPause
    ensures c == Stop <==> cb == OnStop
    ensures c.SeekTo? <==> cb.OnSeekTo?
    ensures c.SeekTo? ==> c.millis == cb.pos
  {
    match cb
    case OnPlay => Resume
    case OnPause => Pause
    case OnStop => Stop
    case OnSeekTo(pos) => SeekTo(pos)
    case OnSkipToNext => Forward30
    case OnSkipToPrevious => Rewind30
    case OnFastForward => Forward30
    case OnRewind => Rewind30
  }

  // ---------------------------------------------------------------------------
  // Broadcast receivers

  /** What a receiver reports to the service: the onConnected or the
      onDisconnected callback. A receiver result of None fires neither. */
  datatype Connection = Connected | Disconnected

  /** A value in an intent's extras Bundle: an int, or something else. */
  datatype ExtraValue = IntValue(i: int) | OtherValue

  /** Bundle.getInt / Intent.getIntExtra: the int stored under `key`, or
      `default` when the key is missing or holds something other than an int. */
  function GetInt(extras: map<string, ExtraValue>, key: string, default: int): (r: int)
    ensures key in extras && extras[key].IntValue? ==> r == extras[key].i
    ensures !(key in extras && extras[key].IntValue?) ==> r == default
  {
    if key in extras && extras[key].IntValue? then extras[key].i else default
  }

  // ---------------------------------------------------------------------------
  // Strings

  /** Kotlin's Char.isWhitespace: Java's Character.isWhitespace or isSpaceChar. */
  predicate IsWhitespace(c: char) {
    c == '\t' || c == '\n' || c == '\U{000B}' || c == '\U{000C}' || c == '\r' ||
    ('\U{001C}' <= c <= '\U{001F}') || c == ' ' || c == '\U{00A0}' || c == '\U{1680}' ||
    ('\U{2000}' <= c <= '\U{200A}') || c == '\U{2028}' || c == '\U{2029}' ||
    c == '\U{202F}' || c == '\U{205F}' || c == '\U{3000}'
  }

  /** Kotlin's String?.isNullOrBlank. */
  predicate IsNullOrBlank(s: Option<string>) {
    match s
    case None => true
    case Some(t) => forall i :: 0 <= i < |t| ==> IsWhitespace(t[i])
  }

  /** A missing string, once defaulted to "", is still null-or-blank, and a
      present one is unchanged. */
  lemma BlankUnlessSome(s: Option<string>)
    ensures IsNullOrBlank(Some(s.GetOr(""))) == IsNullOrBlank(s)
  {
  }

  // ---------------------------------------------------------------------------
  // The event log of a playback service

  /** What a service does to its collaborators and its host, in order. */
  datatype Event =
      // calls into the audio player
    | PlayerPlay(url: string)
    | PlayerPlayLooping(url: string, isLooping: Option<bool>)
    | PlayerResume | PlayerPause | PlayerStop | PlayerSeekTo(millis: int) | PlayerRelease
      // AudioManagerCompat
    | FocusRequested | FocusAbandoned
      // MediaSessionCompat
    | SessionActive(active: bool)
    | SessionPlaybackState(state: PlaybackState, position: int)
    | SessionDuration(duration: int)
      // the notification and the foreground service
    | NotificationButtons(playing: bool)
    | NotificationOngoing(ongoing: bool)
    | StartForeground | StopForeground(removeNotification: bool)
    | Notify | NotificationCancelled | StopSelf
      // the host's callbacks
    | OnLoaded(duration: int) | OnProgressChanged(position: int)
    | OnResumed | OnPaused | OnStopped | OnCompleted

  /** The events updatePlaybackState may produce. */
  predicate IsPublication(e: Event) {
    e.SessionPlaybackState? || e.NotificationButtons? || e.NotificationOngoing? ||
    e == StartForeground || e == StopForeground(false) || e == Notify
  }

  /** What updatePlaybackState does, given the state, the position, whether the
      notification is shown and whether the state differs from the one last
      published. The session always gets the state first; a shown notification
      gets its play/pause button and its ongoing flag set for "playing"; then a
      newly playing service goes to the foreground, a still-playing one only
      re-notifies, and a non-playing one leaves the foreground (keeping the
      notification) and then re-notifies. The studio variant behaves as if the
      state had always changed. */
  function PublishEvents(state: PlaybackState, position: int, shown: bool, stateChanged: bool): (r: seq<Event>)
    ensures |r| >= 1 && r[0] == SessionPlaybackState(state, position)
    ensures !shown ==> |r| == 1
  {
    var session := SessionPlaybackState(state, position);
    if !shown then [session]
    else if state == Playing && stateChanged then
      [session, NotificationButtons(true), NotificationOngoing(true), StartForeground]
    else if state == Playing then
      [session, NotificationButtons(true), NotificationOngoing(true), Notify]
    else
      [session, NotificationButtons(false), NotificationOngoing(false), StopForeground(false), Notify]
  }

  /** What updatePlaybackState promises about the notification: it is marked
      ongoing exactly while playing, the service enters the foreground only on
      a change to playing, leaves it whenever it is not playing, and otherwise
      re-notifies; none of this happens without a shown notification. */
  lemma PublishPolicy(state: PlaybackState, position: int, shown: bool, stateChanged: bool)
    ensures var r := PublishEvents(state, position, shown, stateChanged);
      && (NotificationOngoing(true) in r <==> shown && state == Playing)
      && (StartForeground in r <==> shown && state == Playing && stateChanged)
      && (StopForeground(false) in r <==> shown && state != Playing)
      && (Notify in r <==> shown && !(state == Playing && stateChanged))
  {
    if !shown {
    } else if state == Playing && stateChanged {
    } else if state == Playing {
    } else {
    }
  }

  /** The order of updatePlaybackState's steps: with a shown notification, the
      play/pause button and the ongoing flag follow the session update, and a
      non-playing service leaves the foreground before it re-notifies. It only
      ever publishes. */
  lemma PublishOrder(state: PlaybackState, position: int, shown: bool, stateChanged: bool)
    ensures var r := PublishEvents(state, position, shown, stateChanged);
      && (shown ==> |r| >= 4 && r[1] == NotificationButtons(state == Playing) && r[2] == NotificationOngoing(state == Playing))
      && (shown && state != Playing ==> r[|r| - 2..] == [StopForeground(false), Notify])
      && (forall i :: 0 <= i < |r| ==> IsPublication(r[i]))
  {
    if !shown {
    } else if state == Playing && stateChanged {
    } else if state == Playing {
    } else {
    }
  }

  // ---------------------------------------------------------------------------
  // Host reports

  /** Appending to a log piece by piece appends the pieces' concatenation. */
  lemma AppendTwo(log: seq<Event>, a: seq<Event>, b: seq<Event>)
    ensures log + a + b == log + (a + b)
  {
  }

  /** The same for three pieces. */
  lemma AppendPieces(log: seq<Event>, a: seq<Event>, b: seq<Event>, c: seq<Event>)
    ensures log + a + b + c == log + (a + b + c)
  {
  }

  /** The callbacks a service makes to its host. */
  predicate IsHostReport(e: Event) {
    e.OnLoaded? || e.OnProgressChanged? || e == OnResumed || e == OnPaused || e == OnStopped || e == OnCompleted
  }

  /** The host's view of a log: its host callbacks, in order. */
  function HostReports(log: seq<Event>): (r: seq<Event>)
    ensures |r| <= |log|
    decreases |log|
  {
    if log == [] then []
    else
      var last := log[|log| - 1];
      HostReports(log[..|log| - 1]) + (if IsHostReport(last) then [last] else [])
  }

  /** A single event reaches the host exactly when it is a host callback. */
  lemma HostReportsOne(e: Event)
    ensures HostReports([e]) == if IsHostReport(e) then [e] else []
  {
    assert [e][..0] == [];
  }

  /** The host sees the reports of a concatenation in order. */
  lemma {:induction false} HostReportsAppend(a: seq<Event>, b: seq<Event>)
    ensures HostReports(a + b) == HostReports(a) + HostReports(b)
    decreases |b|
  {
    if b == [] {
      assert a + b == a;
    } else {
      var last := b[|b| - 1];
      assert (a + b)[..|a + b| - 1] == a + b[..|b| - 1];
      HostReportsAppend(a, b[..|b| - 1]);
    }
  }

  /** A log without host callbacks shows the host nothing. */
  lemma {:induction false} NoHostReports(log: seq<Event>)
    requires forall i :: 0 <= i < |log| ==> !IsHostReport(log[i])
    ensures HostReports(log) == []
    decreases |log|
  {
    if log != [] {
      NoHostReports(log[..|log| - 1]);
    }
  }

  /** What the host hears of a log that runs `before`, then updatePlaybackState,
      then `after`: updatePlaybackState adds nothing. */
  lemma ReportsAround(before: seq<Event>, state: PlaybackState, position: int, shown: bool, changed: bool, after: seq<Event>)
    ensures HostReports(before + PublishEvents(state, position, shown, changed) + after)
            == HostReports(before) + HostReports(after)
  {
    var published := PublishEvents(state, position, shown, changed);
    HostReportsAppend(before + published, after);
    HostReportsAppend(before, published);
    PublishingReportsNothing(state, position, shown, changed);
  }

  /** updatePlaybackState reports nothing to the host. */
  lemma PublishingReportsNothing(state: PlaybackState, position: int, shown: bool, stateChanged: bool)
    ensures HostReports(PublishEvents(state, position, shown, stateChanged)) == []
  {
    NoHostReports(PublishEvents(state, position, shown, stateChanged));
  }
}
