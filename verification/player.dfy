/** The AudioPlayer wrapper around Android's MediaPlayer: two flags of its own
    (isLoaded, currentProgress), the MediaPlayer's isPlaying as mirrored state,
    and a ghost log of what it does to the MediaPlayer and the progress Handler
    and of what it reports through its three callbacks. */
module Player {

  /** What the wrapper does and reports, in order. */
  datatype Event =
      // MediaPlayer calls
    | MediaStart | MediaPause | MediaStop | MediaReset
    | MediaSetDataSource(url: string) | MediaPrepareAsync
    | MediaSeekTo(millis: int) | MediaRelease
      // Handler calls for the one-second progress runnable
    | TickPosted | TicksRemoved
      // the callbacks given to the constructor
    | OnLoaded(duration: int) | OnProgressChanged(position: int) | OnCompleted

  /** Kotlin's Long.toInt(): the low 32 bits, read as a two's-complement Int. */
  function ToInt(x: int): (r: int)
    ensures -0x8000_0000 <= r < 0x8000_0000
    ensures -0x8000_0000 <= x < 0x8000_0000 ==> r == x
    ensures (x - r) % 0x1_0000_0000 == 0
  {
    var m := (x + 0x8000_0000) % 0x1_0000_0000;
    assert x - (m - 0x8000_0000) == (x + 0x8000_0000) / 0x1_0000_0000 * 0x1_0000_0000;
    m - 0x8000_0000
  }

  // ---------------------------------------------------------------------------
  // Progress de-duplication

  /** The positions the progress runnable reports for the successive positions
      `ticks`, starting from the stored progress `last`: a tick is reported only
      when it differs from the previous one. So no report repeats the position
      before it, and nothing is reported that was not ticked. */
  function Reported(last: int, ticks: seq<int>): (r: seq<int>)
    ensures |r| <= |ticks|
    decreases |ticks|
  {
    if ticks == [] then []
    else (if ticks[0] != last then [ticks[0]] else []) + Reported(ticks[0], ticks[1..])
  }

  /** No report repeats the position before it (the first one differs from
      `last`), and every report is a ticked position. */
  lemma {:induction false} ReportedNoRepeats(last: int, ticks: seq<int>)
    ensures var r := Reported(last, ticks);
      && (r != [] ==> r[0] != last)
      && (forall i :: 0 < i < |r| ==> r[i - 1] != r[i])
      && (forall x :: x in r ==> x in ticks)
    decreases |ticks|
  {
    if ticks != [] {
      ReportedNoRepeats(ticks[0], ticks[1..]);
      var rest := Reported(ticks[0], ticks[1..]);
      var head: seq<int> := if ticks[0] != last then [ticks[0]] else [];
      assert Reported(last, ticks) == head + rest;
      forall i | 0 < i < |head + rest|
        ensures (head + rest)[i - 1] != (head + rest)[i]
      {
        if head != [] && i == 1 {
          assert (head + rest)[0] == ticks[0] && (head + rest)[1] == rest[0];
        }
      }
      forall x | x in head + rest
        ensures x in ticks
      {
        if x in rest {
          assert x in ticks[1..];
        }
      }
    }
  }

  /** The stored progress after the ticks `ticks`, starting from `last`. */
  function LastOr(last: int, ticks: seq<int>): int {
    if ticks == [] then last else ticks[|ticks| - 1]
  }

  /** One more tick adds a report exactly when it differs from the stored progress. */
  lemma {:induction false} ReportedAppend(last: int, ticks: seq<int>, p: int)
    ensures Reported(last, ticks + [p]) == Reported(last, ticks) + (if p != LastOr(last, ticks) then [p] else [])
    decreases |ticks|
  {
    if ticks == [] {
      assert Reported(p, []) == [];
    } else {
      assert (ticks + [p])[0] == ticks[0];
      assert (ticks + [p])[1..] == ticks[1..] + [p];
      ReportedAppend(ticks[0], ticks[1..], p);
    }
  }

  /** Conversely, ticks that all differ from their predecessor are all reported. */
  lemma {:induction false} ChangesAllReported(last: int, ticks: seq<int>)
    requires ticks != [] ==> ticks[0] != last
    requires forall i :: 0 < i < |ticks| ==> ticks[i - 1] != ticks[i]
    ensures Reported(last, ticks) == ticks
    decreases |ticks|
  {
    if ticks != [] {
      ChangesAllReported(ticks[0], ticks[1..]);
    }
  }

  /** The positions a log has reported through onProgressChanged, in order. */
  ghost function ProgressReports(log: seq<Event>): seq<int> {
    if log == [] then []
    else
      var e := log[|log| - 1];
      ProgressReports(log[..|log| - 1]) + (if e.OnProgressChanged? then [e.position] else [])
  }

  lemma {:induction false} ProgressReportsAppend(a: seq<Event>, b: seq<Event>)
    ensures ProgressReports(a + b) == ProgressReports(a) + ProgressReports(b)
  {
    if b == [] {
      assert a + b == a;
    } else {
      assert (a + b)[..|a + b| - 1] == a + b[..|b| - 1];
      ProgressReportsAppend(a, b[..|b| - 1]);
    }
  }

  lemma {:induction false} ProgressReportsQuiet(es: seq<Event>)
    requires forall i :: 0 <= i < |es| ==> !es[i].OnProgressChanged?
    ensures ProgressReports(es) == []
  {
    if es != [] {
      ProgressReportsQuiet(es[..|es| - 1]);
    }
  }

  /** Appending events that report no progress leaves the reports alone. */
  lemma QuietAppend(log: seq<Event>, es: seq<Event>)
    requires forall i :: 0 <= i < |es| ==> !es[i].OnProgressChanged?
    ensures ProgressReports(log + es) == ProgressReports(log)
  {
    ProgressReportsAppend(log, es);
    ProgressReportsQuiet(es);
  }

  // ---------------------------------------------------------------------------

  class AudioPlayer {
    var isLoaded: bool
    var currentProgress: int
    /** MediaPlayer.isPlaying, as the wrapper reads it. */
    var isPlaying: bool

    /** A prepareAsync is outstanding: the prepared listener may run. */
    ghost var preparing: bool
    /** The progress runnable is posted on the Handler: a tick may occur. */
    ghost var ticking: bool
    /** Every position the progress runnable has read, in order. */
    ghost var ticks: seq<int>
    ghost var log: seq<Event>

    /** Ticks run exactly while a track is loaded, the MediaPlayer only plays a
        loaded track, the stored progress is the last position read, and the
        reported positions are the de-duplicated ticks. */
    ghost predicate Valid()
      reads this
    {
      ticking == isLoaded &&
      (isPlaying ==> isLoaded) &&
      currentProgress == LastOr(0, ticks) &&
      ProgressReports(log) == Reported(0, ticks)
    }

    constructor ()
      ensures Valid()
      ensures !isLoaded && currentProgress == 0 && !isPlaying
      ensures !preparing && !ticking && ticks == [] && log == []
    {
      isLoaded, currentProgress, isPlaying := false, 0, false;
      preparing, ticking, ticks, log := false, false, [], [];
    }

    /** play: stops a playing track, then resets the player and prepares `url`
        asynchronously. Nothing starts playback here: the continuation handed to
        loadAudio is never called, so playback starts in OnPrepared. isLoaded
        keeps its value until the next prepared or completion callback. */
    method Play(url: string)
      requires Valid()
      modifies this
      ensures Valid()
      ensures log == old(log) + (if old(isPlaying) then [MediaStop, MediaReset] else [])
                             + [MediaReset, MediaSetDataSource(url), MediaPrepareAsync]
      ensures preparing && !isPlaying
      ensures isLoaded == old(isLoaded) && currentProgress == old(currentProgress)
      ensures ticking == old(ticking) && ticks == old(ticks)
    {
      if isPlaying {
        Stop();
      }
      LoadAudio(url);
    }

    /** loadAudio: reset, set the data source, prepare asynchronously. The error
        listener it installs returns false, which makes MediaPlayer report the
        error as a completion (OnCompletion). */
    method LoadAudio(url: string)
      requires Valid()
      modifies this
      ensures Valid()
      ensures log == old(log) + [MediaReset, MediaSetDataSource(url), MediaPrepareAsync]
      ensures preparing && !isPlaying
      ensures isLoaded == old(isLoaded) && currentProgress == old(currentProgress)
      ensures ticking == old(ticking) && ticks == old(ticks)
    {
      QuietAppend(log, [MediaReset, MediaSetDataSource(url), MediaPrepareAsync]);
      log := log + [MediaReset, MediaSetDataSource(url), MediaPrepareAsync];
      isPlaying, preparing := false, true;
    }

    /** resume: starts the MediaPlayer only when a track is loaded and it is not
        already playing; otherwise nothing happens. A second resume is a no-op. */
    method Resume()
      requires Valid()
      modifies this
      ensures Valid()
      ensures if old(isLoaded) && !old(isPlaying)
              then isPlaying && log == old(log) + [MediaStart]
              else isPlaying == old(isPlaying) && log == old(log)
      ensures isLoaded == old(isLoaded) && currentProgress == old(currentProgress)
      ensures preparing == old(preparing) && ticking == old(ticking) && ticks == old(ticks)
    {
      if isLoaded && !isPlaying {
        QuietAppend(log, [MediaStart]);
        log := log + [MediaStart];
        isPlaying := true;
      }
    }

    /** pause: acts only while playing. A second pause is a no-op. */
    method Pause()
      requires Valid()
      modifies this
      ensures Valid()
      ensures !isPlaying
      ensures log == old(log) + (if old(isPlaying) then [MediaPause] else [])
      ensures isLoaded == old(isLoaded) && currentProgress == old(currentProgress)
      ensures preparing == old(preparing) && ticking == old(ticking) && ticks == old(ticks)
    {
      if isPlaying {
        QuietAppend(log, [MediaPause]);
        log := log + [MediaPause];
        isPlaying := false;
      }
    }

    /** stop: stops and resets the MediaPlayer only while playing. It leaves
        isLoaded and the progress ticks alone. */
    method Stop()
      requires Valid()
      modifies this
      ensures Valid()
      ensures !isPlaying
      ensures log == old(log) + (if old(isPlaying) then [MediaStop, MediaReset] else [])
      ensures isLoaded == old(isLoaded) && currentProgress == old(currentProgress)
      ensures preparing == old(preparing) && ticking == old(ticking) && ticks == old(ticks)
    {
      if isPlaying {
        QuietAppend(log, [MediaStop, MediaReset]);
        log := log + [MediaStop, MediaReset];
        isPlaying := false;
      }
    }

    /** seekTo: ignored unless a track is loaded; the Long target is narrowed
        to an Int for MediaPlayer.seekTo. */
    method SeekTo(timeInMillis: int)
      requires Valid()
      modifies this
      ensures Valid()
      ensures log == old(log) + (if old(isLoaded) then [MediaSeekTo(ToInt(timeInMillis))] else [])
      ensures isLoaded == old(isLoaded) && isPlaying == old(isPlaying) && currentProgress == old(currentProgress)
      ensures preparing == old(preparing) && ticking == old(ticking) && ticks == old(ticks)
    {
      if isLoaded {
        QuietAppend(log, [MediaSeekTo(ToInt(timeInMillis))]);
        log := log + [MediaSeekTo(ToInt(timeInMillis))];
      }
    }

    /** release: hands the MediaPlayer back to the system. */
    method Release()
      requires Valid()
      modifies this
      ensures Valid()
      ensures log == old(log) + [MediaRelease]
      ensures isLoaded == old(isLoaded) && isPlaying == old(isPlaying) && currentProgress == old(currentProgress)
      ensures preparing == old(preparing) && ticking == old(ticking) && ticks == old(ticks)
    {
      QuietAppend(log, [MediaRelease]);
      log := log + [MediaRelease];
    }

    /** The prepared listener: start playback, report the duration once, post
        the progress runnable, and mark the track loaded. */
    method OnPrepared(duration: int)
      requires Valid() && preparing
      modifies this
      ensures Valid()
      ensures log == old(log) + [MediaStart, OnLoaded(duration), TickPosted]
      ensures isLoaded && isPlaying && ticking && !preparing
      ensures currentProgress == old(currentProgress) && ticks == old(ticks)
    {
      QuietAppend(log, [MediaStart, OnLoaded(duration), TickPosted]);
      log := log + [MediaStart, OnLoaded(duration), TickPosted];
      isPlaying, ticking, isLoaded, preparing := true, true, true, false;
    }

    /** The completion listener (also reached after an error): report the
        completion, remove the progress runnable, and mark the track unloaded. */
    method OnCompletion()
      requires Valid()
      modifies this
      ensures Valid()
      ensures log == old(log) + [OnCompleted, TicksRemoved]
      ensures !isLoaded && !isPlaying && !ticking && !preparing
      ensures currentProgress == old(currentProgress) && ticks == old(ticks)
    {
      QuietAppend(log, [OnCompleted, TicksRemoved]);
      log := log + [OnCompleted, TicksRemoved];
      ticking := false;
      isLoaded := false;
      isPlaying := false;
      preparing := false;
    }

    /** The progress runnable, run by the Handler while it is posted: the
        MediaPlayer's current position is reported and stored only when it
        differs from the stored progress; then the runnable re-posts itself. */
    method OnProgressTick(position: int)
      requires Valid() && ticking
      modifies this
      ensures Valid()
      ensures ticks == old(ticks) + [position]
      ensures currentProgress == position
      ensures log == old(log) + (if position != old(currentProgress) then [OnProgressChanged(position)] else [])
                             + [TickPosted]
      ensures isLoaded == old(isLoaded) && isPlaying == old(isPlaying)
      ensures preparing == old(preparing) && ticking == old(ticking)
    {
      ReportedAppend(0, ticks, position);
      ticks := ticks + [position];
      if position != currentProgress {
        ProgressReportsAppend(log, [OnProgressChanged(position)]);
        assert ProgressReports([OnProgressChanged(position)]) == [position] by {
          assert [OnProgressChanged(position)][..0] == [];
        }
        log := log + [OnProgressChanged(position)];
        currentProgress := position;
      }
      QuietAppend(log, [TickPosted]);
      log := log + [TickPosted];
    }
  }
}
