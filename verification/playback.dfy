/** The transport of the player: the playback clock (PlaybackState) and the
    controller methods of VinylPlayer that start, pause, resume, stop, seek
    and change tracks. Time is integer milliseconds and every reading of the
    clock is a `now` parameter. The audio backend is a ghost log of the calls
    made on it; whether a load succeeds, whether the backend is still busy and
    the probed length of a track are inputs. */
module Playback {
  import opened Wrappers
  import opened Playlist

  /** A call on the audio backend: load a file, play from a position (ms),
      pause, unpause, stop. */
  datatype BackendCall = Load(path: string) | Play(startMs: int) | Pause | Unpause | Stop

  /** PlaybackState: whether a track is playing and whether it is paused, its
      probed length, when it started, how long it has been paused in total
      and when the current pause began. */
  class PlaybackState {
    var isPlaying: bool
    var isPaused: bool
    var trackLength: nat
    var startTime: int
    var pauseAccum: int
    var lastPause: int

    /** Only a playing track is ever paused. */
    ghost predicate Valid()
      reads this
    {
      isPaused ==> isPlaying
    }

    /** The state reset() leaves: nothing playing and every number zero. */
    predicate IsReset()
      reads this
    {
      !isPlaying && !isPaused && trackLength == 0 &&
      startTime == 0 && pauseAccum == 0 && lastPause == 0
    }

    /** The state a successful load_and_play leaves at time `now`. */
    predicate Started(now: int, length: nat)
      reads this
    {
      isPlaying && !isPaused && trackLength == length &&
      startTime == now && pauseAccum == 0 && lastPause == 0
    }

    constructor ()
      ensures Valid() && IsReset()
    {
      new;
      Reset();
    }

    method Reset()
      modifies this
      ensures Valid() && IsReset()
    {
      isPlaying := false;
      isPaused := false;
      trackLength := 0;
      startTime := 0;
      pauseAccum := 0;
      lastPause := 0;
    }
  }

  class VinylPlayer {
    const playlistManager: PlaylistManager
    const playbackState: PlaybackState
    /** The calls made on the audio backend so far, oldest first. */
    ghost var backendLog: seq<BackendCall>

    ghost predicate Valid()
      reads this, playlistManager, playbackState
    {
      playlistManager.Valid() && playbackState.Valid()
    }

    constructor ()
      ensures Valid() && fresh(playlistManager) && fresh(playbackState)
      ensures playlistManager.playlist == [] && playlistManager.currentIndex == -1
      ensures playlistManager.repeatMode == 0 && !playlistManager.shuffleMode
      ensures playbackState.IsReset() && backendLog == []
    {
      playlistManager := new PlaylistManager();
      playbackState := new PlaybackState();
      backendLog := [];
    }

    /** _elapsed_time at time `now`: 0 when nothing plays; otherwise the time
        since the start, up to the current pause if paused, less the paused
        time, and never below 0. */
    function ElapsedTime(now: int): (r: int)
      reads playbackState
      ensures r >= 0
      ensures !playbackState.isPlaying ==> r == 0
      ensures playbackState.isPlaying && !playbackState.isPaused &&
              now >= playbackState.startTime + playbackState.pauseAccum ==>
                r + playbackState.startTime + playbackState.pauseAccum == now
    {
      if !playbackState.isPlaying then 0
      else
        var until := if playbackState.isPaused then playbackState.lastPause else now;
        var e := until - playbackState.startTime - playbackState.pauseAccum;
        if e < 0 then 0 else e
    }

    /** Nothing but the playback state and the backend log has moved. */
    twostate predicate ListKept()
      reads playlistManager
    {
      playlistManager.playlist == old(playlistManager.playlist) &&
      playlistManager.originalOrder == old(playlistManager.originalOrder) &&
      playlistManager.repeatMode == old(playlistManager.repeatMode) &&
      playlistManager.shuffleMode == old(playlistManager.shuffleMode)
    }

    /** What load_and_play(index) leaves: nothing for an index off the list;
        a load call and nothing else when the load fails; otherwise a load and
        a play from the start, and a clock started at `now` on a track of the
        probed length. */
    twostate predicate LoadedAndPlaying(index: int, now: int, loadOk: bool, length: nat)
      reads this, playlistManager, playbackState
    {
      var tracks := playlistManager.playlist;
      if !(0 <= index < |tracks|) then
        unchanged(playbackState) && backendLog == old(backendLog)
      else if !loadOk then
        unchanged(playbackState) && backendLog == old(backendLog) + [Load(tracks[index])]
      else
        playbackState.Started(now, length) &&
        backendLog == old(backendLog) + [Load(tracks[index]), Play(0)]
    }

    /** What next_track leaves: nothing on an empty list; otherwise the cursor
        on get_next_index of the old cursor, and that track loaded. */
    twostate predicate Advanced(now: int, loadOk: bool, length: nat)
      reads this, playlistManager, playbackState
    {
      ListKept() &&
      if old(playlistManager.playlist) == [] then
        backendLog == old(backendLog) && unchanged(playlistManager, playbackState)
      else
        playlistManager.currentIndex ==
          NextIndex(|playlistManager.playlist|, old(playlistManager.currentIndex), playlistManager.repeatMode) &&
        LoadedAndPlaying(playlistManager.currentIndex, now, loadOk, length)
    }

    /** load_and_play: loads the track at `index` and starts it from the
        beginning; an index off the list or a failed load leaves the clock
        as it was. */
    method LoadAndPlay(index: int, now: int, loadOk: bool, probedLength: nat)
      requires Valid()
      modifies this, playbackState
      ensures Valid()
      ensures LoadedAndPlaying(index, now, loadOk, probedLength)
    {
      if index < 0 || index >= |playlistManager.playlist| {
        return;
      }
      var path := playlistManager.playlist[index];
      backendLog := backendLog + [Load(path)];
      if !loadOk {
        return;
      }
      playbackState.trackLength := probedLength;
      backendLog := backendLog + [Play(0)];
      playbackState.isPlaying := true;
      playbackState.isPaused := false;
      playbackState.startTime := now;
      playbackState.pauseAccum := 0;
      playbackState.lastPause := 0;
    }

    /** play_pause at time `now`. With an empty list nothing happens. A playing
        track is paused and a paused one resumed; either way the elapsed time
        at `now` does not jump. Otherwise the cursor moves to the selected row
        (`selection`, already mapped to a list position), or to the first
        track when there is none and no cursor, and that track is loaded. */
    method PlayPause(now: int, selection: Option<int>, loadOk: bool, probedLength: nat)
      requires Valid()
      requires selection.Some? ==> 0 <= selection.value < |playlistManager.playlist|
      modifies this, playbackState, playlistManager
      ensures Valid() && ListKept()
      ensures old(playlistManager.playlist) == [] ==> backendLog == old(backendLog) && unchanged(playlistManager, playbackState)
      ensures old(playlistManager.playlist) != [] && old(playbackState.isPlaying) ==>
                unchanged(playlistManager) &&
                playbackState.isPlaying && playbackState.isPaused == !old(playbackState.isPaused) &&
                playbackState.trackLength == old(playbackState.trackLength) &&
                playbackState.startTime == old(playbackState.startTime) &&
                ElapsedTime(now) == old(ElapsedTime(now))
      ensures old(playlistManager.playlist) != [] && old(playbackState.isPlaying && !playbackState.isPaused) ==>
                playbackState.lastPause == now && playbackState.pauseAccum == old(playbackState.pauseAccum) &&
                backendLog == old(backendLog) + [Pause]
      ensures old(playlistManager.playlist) != [] && old(playbackState.isPlaying && playbackState.isPaused) ==>
                playbackState.lastPause == old(playbackState.lastPause) &&
                playbackState.pauseAccum == old(playbackState.pauseAccum) + now - old(playbackState.lastPause) &&
                backendLog == old(backendLog) + [Unpause]
      ensures old(playlistManager.playlist) != [] && !old(playbackState.isPlaying) ==>
                playlistManager.currentIndex ==
                  (if selection.Some? then selection.value
                   else if old(playlistManager.currentIndex) == -1 then 0
                   else old(playlistManager.currentIndex)) &&
                LoadedAndPlaying(playlistManager.currentIndex, now, loadOk, probedLength)
    {
      if playlistManager.playlist == [] {
        return;
      }
      if playbackState.isPlaying && !playbackState.isPaused {
        backendLog := backendLog + [Pause];
        playbackState.isPaused := true;
        playbackState.lastPause := now;
        return;
      }
      if playbackState.isPlaying && playbackState.isPaused {
        backendLog := backendLog + [Unpause];
        playbackState.isPaused := false;
        playbackState.pauseAccum := playbackState.pauseAccum + (now - playbackState.lastPause);
        return;
      }
      if selection.Some? {
        playlistManager.currentIndex := selection.value;
      } else if playlistManager.currentIndex == -1 {
        playlistManager.currentIndex := 0;
      }
      LoadAndPlay(playlistManager.currentIndex, now, loadOk, probedLength);
    }

    /** Pausing at `t1` and resuming at `t2`: the elapsed time just after the
        resume is the elapsed time at the pause, however long the pause was. */
    method PauseThenResume(t1: int, t2: int)
      requires Valid() && playlistManager.playlist != []
      requires playbackState.isPlaying && !playbackState.isPaused
      modifies this, playbackState, playlistManager
      ensures Valid() && ListKept()
      ensures playbackState.isPlaying && !playbackState.isPaused
      ensures ElapsedTime(t2) == old(ElapsedTime(t1))
      ensures backendLog == old(backendLog) + [Pause, Unpause]
    {
      PlayPause(t1, None, false, 0);
      PlayPause(t2, None, false, 0);
    }

    /** stop: stops the backend and resets the clock. */
    method Stop()
      requires Valid()
      modifies this, playbackState
      ensures Valid() && playbackState.IsReset()
      ensures backendLog == old(backendLog) + [BackendCall.Stop]
    {
      backendLog := backendLog + [BackendCall.Stop];
      playbackState.Reset();
    }

    /** next_track: on a non-empty list, moves the cursor to get_next_index
        and loads that track. */
    method NextTrack(now: int, loadOk: bool, probedLength: nat)
      requires Valid()
      modifies this, playbackState, playlistManager
      ensures Valid() && Advanced(now, loadOk, probedLength)
    {
      if playlistManager.playlist == [] {
        return;
      }
      var next := playlistManager.GetNextIndex();
      playlistManager.currentIndex := next;
      LoadAndPlay(next, now, loadOk, probedLength);
    }

    /** prev_track: on a non-empty list, moves the cursor to get_prev_index
        and loads that track. */
    method PrevTrack(now: int, loadOk: bool, probedLength: nat)
      requires Valid()
      modifies this, playbackState, playlistManager
      ensures Valid() && ListKept()
      ensures old(playlistManager.playlist) == [] ==> backendLog == old(backendLog) && unchanged(playlistManager, playbackState)
      ensures old(playlistManager.playlist) != [] ==>
                playlistManager.currentIndex ==
                  PrevIndex(|playlistManager.playlist|, old(playlistManager.currentIndex), playlistManager.repeatMode) &&
                LoadedAndPlaying(playlistManager.currentIndex, now, loadOk, probedLength)
    {
      if playlistManager.playlist == [] {
        return;
      }
      var prev := playlistManager.GetPrevIndex();
      playlistManager.currentIndex := prev;
      LoadAndPlay(prev, now, loadOk, probedLength);
    }

    /** _handle_track_end: reloads the current track under repeat-one and goes
        to the next track otherwise. Since get_next_index under repeat-one is
        the current index, both ways end exactly as next_track does. */
    method HandleTrackEnd(now: int, loadOk: bool, probedLength: nat)
      requires Valid()
      modifies this, playbackState, playlistManager
      ensures Valid() && Advanced(now, loadOk, probedLength)
      ensures playlistManager.repeatMode == 1 ==> playlistManager.currentIndex == old(playlistManager.currentIndex)
    {
      if playlistManager.repeatMode == 1 {
        LoadAndPlay(playlistManager.currentIndex, now, loadOk, probedLength);
      } else {
        NextTrack(now, loadOk, probedLength);
      }
    }

    /** The end-of-track test of one _update_ui tick at time `now`, given
        whether the backend is still busy: a track has ended exactly when it
        is playing, not paused and the backend is idle; then the end is
        handled whatever the elapsed time, and otherwise nothing changes. */
    method UpdateUi(now: int, busy: bool, loadOk: bool, probedLength: nat) returns (ended: bool)
      requires Valid()
      modifies this, playbackState, playlistManager
      ensures Valid()
      ensures ended == old(playbackState.isPlaying && !busy && !playbackState.isPaused)
      ensures !ended ==> backendLog == old(backendLog) && unchanged(playlistManager, playbackState)
      ensures ended ==> Advanced(now, loadOk, probedLength)
    {
      ended := false;
      if playbackState.isPlaying {
        var elapsed := ElapsedTime(now);
        if !busy && !playbackState.isPaused {
          ended := true;
          // The track is either near its end or not; both branches do the same.
          if playbackState.trackLength > 0 && elapsed >= playbackState.trackLength - 250 {
            HandleTrackEnd(now, loadOk, probedLength);
          } else {
            HandleTrackEnd(now, loadOk, probedLength);
          }
        }
      }
    }

    /** _seek_end at time `now` with the progress bar at `position` ms: while a
        track of known length plays, restarts the backend from that position
        (paused again if it was paused) and moves the clock so that the
        elapsed time at `now` is exactly `position`. */
    method SeekEnd(now: int, position: nat)
      requires Valid()
      modifies this, playbackState
      ensures Valid()
      ensures !old(playbackState.isPlaying && playbackState.trackLength > 0) ==>
                backendLog == old(backendLog) && unchanged(playbackState)
      ensures old(playbackState.isPlaying && playbackState.trackLength > 0) ==>
                playbackState.isPlaying && playbackState.isPaused == old(playbackState.isPaused) &&
                playbackState.trackLength == old(playbackState.trackLength) &&
                playbackState.startTime == now - position && playbackState.pauseAccum == 0 &&
                playbackState.lastPause == (if old(playbackState.isPaused) then now else 0) &&
                backendLog == old(backendLog) + [Play(position)] + (if old(playbackState.isPaused) then [Pause] else []) &&
                ElapsedTime(now) == position
    {
      if !playbackState.isPlaying || playbackState.trackLength <= 0 {
        return;
      }
      // The source tests the length a second time here; that test always holds.
      var ms := position;
      var wasPaused := playbackState.isPaused;
      backendLog := backendLog + [Play(ms)];
      if wasPaused {
        backendLog := backendLog + [Pause];
      }
      playbackState.startTime := now - ms;
      playbackState.pauseAccum := 0;
      playbackState.lastPause := if wasPaused then now else 0;
    }

    /** toggle_repeat: flips repeat between off (0) and one (1). */
    method ToggleRepeat()
      requires Valid()
      modifies playlistManager
      ensures Valid()
      ensures playlistManager.repeatMode == 1 - old(playlistManager.repeatMode)
      ensures playlistManager.playlist == old(playlistManager.playlist)
      ensures playlistManager.originalOrder == old(playlistManager.originalOrder)
      ensures playlistManager.currentIndex == old(playlistManager.currentIndex)
      ensures playlistManager.shuffleMode == old(playlistManager.shuffleMode)
    {
      playlistManager.repeatMode := (playlistManager.repeatMode + 1) % 2;
    }
  }

  /** While paused, the elapsed time does not depend on the clock. */
  lemma ElapsedFrozenWhilePaused(p: VinylPlayer, t1: int, t2: int)
    requires p.playbackState.isPaused
    ensures p.ElapsedTime(t1) == p.ElapsedTime(t2)
  {
  }

  /** The elapsed time never goes backwards as the clock moves forward. */
  lemma ElapsedMonotone(p: VinylPlayer, t1: int, t2: int)
    requires t1 <= t2
    ensures p.ElapsedTime(t1) <= p.ElapsedTime(t2)
  {
  }

  /** While playing, once the elapsed time is positive it advances with the
      clock, millisecond for millisecond. */
  lemma ElapsedAdvancesWithClock(p: VinylPlayer, t1: int, t2: int)
    requires p.playbackState.isPlaying && !p.playbackState.isPaused
    requires t1 <= t2 && p.ElapsedTime(t1) > 0
    ensures p.ElapsedTime(t2) == p.ElapsedTime(t1) + (t2 - t1)
  {
  }
}
