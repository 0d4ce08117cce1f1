# Vinyl player core in Dafny

This project models the core of a desktop music player whose logic lives in
one Python file, `src/reproductor_musica.py`. The player keeps a playlist of
track paths and drives an audio backend. The modelled core has four parts:

- **AudioFormats** (`formats.dfy`). This is the extension test of the player.
  A path is accepted when pathlib's suffix of its name, lower-cased, is one of
  `.mp3 .ogg .wav .flac .mod .xm .it .s3m`.
- **PlaylistManager** (`playlist.dfy`). This is a class holding:
  - the list of tracks;
  - a cursor, which is -1 when no track is selected;
  - the repeat mode (0 = off, 1 = repeat one track);
  - the shuffle mode;
  - a snapshot of the list order, which shuffle-off restores.

  Its operations are adding files, adding a folder, removing positions,
  clearing, shuffle on/off, and the next/previous cursor arithmetic.
- **PlaybackState and the transport methods of VinylPlayer** (`playback.dfy`).
  The playback clock is a class with six fields: the playing and paused flags,
  the track length, the start time, the accumulated pause time and the time
  the last pause began. The transport methods are play/pause, stop,
  load-and-play, next, previous, seek, toggle repeat, end-of-track handling
  and elapsed time.
- **`_fmt_time`** (`timefmt.dfy`). This is the "MM:SS" clock text.

How the model stands in for what it cannot see:
- Time is integer milliseconds. Each reading of the wall clock is a `now`
  parameter.
- The audio backend (pygame's mixer) is a ghost log of `BackendCall`s:
  `Load`, `Play(startMs)`, `Pause`, `Unpause`, `Stop`.
- Three backend answers are inputs: whether a load succeeds (`loadOk`),
  whether the backend is still busy (`busy`), and the probed track length
  (`probedLength`).
- `random.shuffle` is "some permutation", chosen by `:|`.

The class invariant `PlaylistManager.Valid` holds:
- the cursor is a position or -1;
- the repeat mode is 0 or 1;
- the snapshot holds the same tracks as the list;
- the list never holds the empty path (the extension filter rejects it);
- outside shuffle mode the snapshot equals the list.

The public operations of the class (the constructor, adding files or a
folder, removing, clearing and toggling shuffle) require and keep `Valid`.
The two shuffle helpers, `ApplyShuffle` and `RestoreOriginalOrder`, require
and keep only `Consistent`, which is `Valid` without the last item: they run
only inside `ToggleShuffle`, after the mode has been flipped, so at that point
the snapshot and the list may differ outside shuffle mode.

## Model

| member | source | states |
|---|---|---|
| AudioFormats.Extensions | src/reproductor_musica.py:23 | the eight accepted suffixes, lower case with their dot |
| AudioFormats.IsSupported | src/reproductor_musica.py:50 | a path passes when the lower-cased suffix of its name is one of the eight; `add_folder` applies the same test (line 59) |
| AudioFormats.Lower | src/reproductor_musica.py:50 | `str.lower()` on ASCII text: the same length, each character lower-cased as `LowerChar` does (letters A-Z only) |
| AudioFormats.LowerIdempotent | src/reproductor_musica.py:50 | lower-casing text that is already lower-cased changes nothing |
| AudioFormats.Supported | src/reproductor_musica.py:48-51 | the files `add_files` keeps are never more than the files given |
| AudioFormats.SupportedMembers | src/reproductor_musica.py:23 | a file is kept exactly when it is among the files given and its lower-cased suffix is one of the eight extensions |
| AudioFormats.SupportedAppend | src/reproductor_musica.py:49-51 | filtering two batches one after the other keeps the same files, in the same order, as filtering them together |
| AudioFormats.SupportedStep | src/reproductor_musica.py:49-51 | one more file adds that file to the kept ones exactly when it passes the test |
| AudioFormats.FilterSupported | src/reproductor_musica.py:49-51 | the filtering loop returns exactly the files that pass the test, in their input order |
| AudioFormats.EmptyPathUnsupported | src/reproductor_musica.py:50 | the empty path has no suffix, so it is never kept |
| AudioFormats.SupportedIgnoresCase | src/reproductor_musica.py:50 | the test accepts a path exactly when it accepts the same path in lower case |
| AudioFormats.Name | src/reproductor_musica.py:50 | pathlib's name holds no separator and is never "." |
| AudioFormats.NameOfPlainPath | src/reproductor_musica.py:50 | a path with no separator, other than ".", is its own name |
| AudioFormats.NameInDirectory | src/reproductor_musica.py:50 | the directories in front of a name do not change it |
| AudioFormats.NameTrailingSlash | src/reproductor_musica.py:50 | a trailing separator does not change the name |
| AudioFormats.NameTrailingDot | src/reproductor_musica.py:50 | a trailing "." component does not change the name |
| AudioFormats.Suffix | src/reproductor_musica.py:50 | a suffix is empty, or it is a tail of the name of at least two characters that starts with the only '.' in it, and it is never the whole name |
| AudioFormats.SuffixNonEmpty | src/reproductor_musica.py:50 | a name has a suffix exactly when its last character is not a dot and a dot sits after its first character |
| AudioFormats.SuffixAt | src/reproductor_musica.py:50 | when the last dot of a name is neither its first nor its last character, the suffix runs from that dot to the end |
| AudioFormats.RFind | src/reproductor_musica.py:50 | the position found holds the character, and no later position does; -1 means there is none |
| AudioFormats.SupportedExampleUpperCase | src/reproductor_musica.py:50 | "cd/T.MP3" is accepted: the letter case of the suffix does not matter |
| AudioFormats.SupportedExampleLastSuffix | src/reproductor_musica.py:50 | "a.txt.xm" is accepted: only the last suffix counts |
| AudioFormats.SupportedExampleInnerSuffix | src/reproductor_musica.py:50 | "a.xm.txt" is rejected |
| AudioFormats.SupportedExampleHiddenName | src/reproductor_musica.py:50 | "cd/.mp3" is rejected: a name that starts with its only dot has no suffix |
| AudioFormats.SupportedExampleTrailingSlash | src/reproductor_musica.py:50 | "cd/s.ogg/" is accepted: a trailing separator is ignored |
| Playlist.NextIndex | src/reproductor_musica.py:124-131 | -1 on an empty list; the current index under repeat-one; otherwise a position in range: the following one, or the first after the last |
| Playlist.PrevIndex | src/reproductor_musica.py:133-140 | -1 on an empty list; the current index under repeat-one; otherwise a position in range: the preceding one, or the last before the first; with no current track (-1) it is the last but one |
| Playlist.NextPrevInverse | src/reproductor_musica.py:124-140 | on any track of a non-empty list, previous undoes next and next undoes previous |
| Playlist.AdvanceSteps | src/reproductor_musica.py:124-131 | without repeat-one, k next steps (k at most the length) move the cursor k places forward modulo the length |
| Playlist.RetreatSteps | src/reproductor_musica.py:133-140 | without repeat-one, k previous steps (k at most the length) move the cursor k places backward modulo the length |
| Playlist.FullCycle | src/reproductor_musica.py:124-140 | as many next steps, or previous steps, as there are tracks return to the starting track |
| Playlist.RepeatOneStays | src/reproductor_musica.py:128-129 | under repeat-one no number of next or previous steps moves the cursor |
| Playlist.SortDescending | src/reproductor_musica.py:67 | `sorted(indices, reverse=True)` holds the same indices, repetitions included |
| Playlist.SortedDescending | src/reproductor_musica.py:67 | the sorted indices are in non-increasing order |
| Playlist.SortDistinct | src/reproductor_musica.py:67 | sorting indices that are all different gives a strictly decreasing order |
| Playlist.RemoveStep | src/reproductor_musica.py:68-73 | an index off the list changes nothing; otherwise that position is deleted; deleting the current track sets the cursor to -1; after any other deletion the cursor is on the same track as before |
| Playlist.Removal | src/reproductor_musica.py:67-73 | the removal loop never lengthens the list, leaves only tracks that were on it, and keeps the cursor a position or -1 |
| Playlist.RemovalOnlyDeletes | src/reproductor_musica.py:67-73 | for any indices, repeated ones included, the removal loop only deletes: the remaining tracks are a sub-multiset of the old ones |
| Playlist.RemoveSorted | src/reproductor_musica.py:67-73 | the deletion loop ends with the list and cursor that Removal gives for the same indices |
| Playlist.InRangeLast | src/reproductor_musica.py:67 | the last of strictly decreasing indices lies below the others, and it joins the positions asked for when it is in range |
| Playlist.RemovalOfDistinct | src/reproductor_musica.py:67-73 | over strictly decreasing indices, the loop deletes exactly the positions in range and moves the cursor down by the number of deleted positions below it, or to -1 if its track went |
| Playlist.RemoveDistinctIndices | src/reproductor_musica.py:66-73 | the same for any indices that are all different, taken through the sort |
| Playlist.RemoveBelowCursorExample | src/reproductor_musica.py:72-73 | removing position 0 from [A, B, C] on B leaves [B, C] still on B |
| Playlist.RepeatedIndexExample | src/reproductor_musica.py:67-69 | a repeated index is not merged: [0, 0] deletes the first two tracks |
| Playlist.IndexOf | src/reproductor_musica.py:119 | `list.index`: the first position holding the track |
| Playlist.Truthy | src/reproductor_musica.py:100 | Python truthiness of the current track: there is one and it is not the empty string (also lines 105 and 118) |
| Playlist.Shuffled | src/reproductor_musica.py:93-109 | what `_apply_shuffle` leaves: nothing on an empty list; otherwise a reordering of the list, with a truthy current track first and the cursor on it, and the cursor unmoved otherwise |
| Playlist.Restored | src/reproductor_musica.py:111-119 | what `_restore_original_order` leaves: nothing on an empty snapshot; otherwise the snapshot, with the cursor on the first place of its truthy track when present, and unmoved otherwise |
| Playlist.ShuffleListing | src/reproductor_musica.py:93-109 | on a non-empty list, the result is a permutation of the list; a truthy current track is moved to the front with the cursor on it; otherwise the cursor stays |
| Playlist.ShuffleAroundCurrent | src/reproductor_musica.py:100-107 | the current track in front of any permutation of the other tracks is a permutation of the whole list |
| Playlist.ShuffleWhole | src/reproductor_musica.py:103 | with no truthy current track, any permutation of the list leaves the cursor where it was |
| Playlist.Shuffle | src/reproductor_musica.py:103 | `random.shuffle` returns the same tracks in some order |
| Playlist.PlaylistManager.constructor | src/reproductor_musica.py:41-46 | the store starts empty, with no cursor, repeat off and shuffle off |
| Playlist.PlaylistManager.GetNextIndex | src/reproductor_musica.py:124-131 | on a valid store the next index is a position or -1, and a position whenever the list is non-empty and repeat-one is off |
| Playlist.PlaylistManager.GetPrevIndex | src/reproductor_musica.py:133-140 | on a valid store the previous index is a position or -1, and a position whenever the list is non-empty and repeat-one is off |
| Playlist.PlaylistManager.AddFiles | src/reproductor_musica.py:48-52 | the old list is kept as a prefix, followed by exactly the supported files in their order; the snapshot is retaken; the cursor and modes are unchanged |
| Playlist.PlaylistManager.AddFolder | src/reproductor_musica.py:54-64 | the same as add_files over the walked paths, and the count returned is the number of tracks added |
| Playlist.PlaylistManager.RemoveItems | src/reproductor_musica.py:66-78 | list and cursor are those of the removal loop over the indices sorted high to low; for indices that are all different, exactly the positions in range are gone and the cursor follows its track; the snapshot is retaken |
| Playlist.PlaylistManager.Clear | src/reproductor_musica.py:80-83 | list and snapshot are empty and the cursor is -1 |
| Playlist.PlaylistManager.ToggleShuffle | src/reproductor_musica.py:85-91 | the mode flips; turning it on shuffles, turning it off restores the snapshot |
| Playlist.PlaylistManager.ApplyShuffle | src/reproductor_musica.py:93-109 | no-op on an empty list; otherwise a permutation with the truthy current track in front and the cursor on it; the snapshot is untouched |
| Playlist.PlaylistManager.RestoreOriginalOrder | src/reproductor_musica.py:111-119 | no-op on an empty snapshot; otherwise the list becomes the snapshot and the cursor moves to the first place of its truthy track if present, and stays put if not |
| Playlist.PlaylistManager.ToggleShuffleTwice | src/reproductor_musica.py:85-119 | shuffle on then off with no edit between gives back the list exactly; the cursor returns to the first place of its track, and to its own place when the list has no repeated track |
| TimeFormat.WholeSeconds | src/reproductor_musica.py:730 | `max(0, int(seconds))`: the whole seconds of a non-negative time, and 0 for any time under one second, negative ones included |
| TimeFormat.Decimal | src/reproductor_musica.py:731 | the decimal digits of a number: at least one digit, a single digit exactly below 10, and no leading zero |
| TimeFormat.TwoDigits | src/reproductor_musica.py:731 | the `:02d` format: digits only, exactly two of them below 100, and no leading zero when there are more than two |
| TimeFormat.FmtTime | src/reproductor_musica.py:729-731 | digits, a colon and two digits; exactly five characters below 100 minutes; no leading zero in a longer minutes field; the seconds field reads as a number below 60 |
| TimeFormat.ParseDecimalOfDecimal | src/reproductor_musica.py:731 | the digits written for a number read back as that number |
| TimeFormat.FmtTimeRoundTrip | src/reproductor_musica.py:729-731 | the clock text reads back as the whole seconds it was made from |
| TimeFormat.FmtTimeExampleUnderMinute | src/reproductor_musica.py:729-731 | 59.999 s is "00:59": the fraction is dropped |
| TimeFormat.FmtTimeExampleNegative | src/reproductor_musica.py:730 | a negative time is "00:00" |
| TimeFormat.FmtTimeExampleHundredMinutes | src/reproductor_musica.py:731 | 100 minutes is "100:00": the minutes field grows past two digits |
| Playback.PlaybackState.constructor | src/reproductor_musica.py:28-29 | a new clock is in the reset state |
| Playback.PlaybackState.Reset | src/reproductor_musica.py:31-37 | nothing plays, nothing is paused, and every number is zero |
| Playback.VinylPlayer.constructor | src/reproductor_musica.py:255-256 | a player starts with an empty store, repeat off, shuffle off, a reset clock and no backend call |
| Playback.VinylPlayer.ElapsedTime | src/reproductor_musica.py:717-726 | never negative; 0 when nothing plays; while playing and not paused, once the clock has passed the start plus the paused time, it is the time since the start less the paused time |
| Playback.ElapsedFrozenWhilePaused | src/reproductor_musica.py:722-724 | while paused the elapsed time does not depend on the clock |
| Playback.ElapsedMonotone | src/reproductor_musica.py:717-726 | the elapsed time never decreases as the clock moves forward |
| Playback.ElapsedAdvancesWithClock | src/reproductor_musica.py:725-726 | while playing, once positive, the elapsed time grows exactly as the clock does |
| Playback.VinylPlayer.LoadedAndPlaying | src/reproductor_musica.py:545-571 | what load_and_play leaves: nothing for an index off the list; only a load call when the load fails; otherwise a load and a play from 0, with the clock started at `now` on the probed length |
| Playback.VinylPlayer.LoadAndPlay | src/reproductor_musica.py:545-571 | an index off the list changes nothing; a failed load logs only the load and leaves the clock as it was; a successful one logs load and play from 0, and starts the clock at `now` with the probed length |
| Playback.VinylPlayer.PlayPause | src/reproductor_musica.py:490-518 | no-op on an empty list; pausing logs a pause and records `now`; resuming logs an unpause and adds the pause to the accumulated time; both keep the elapsed time at `now`; otherwise the cursor moves to the selection, or to 0 if it was -1, and that track is loaded |
| Playback.VinylPlayer.PauseThenResume | src/reproductor_musica.py:495-507 | pausing at t1 and resuming at t2 makes the elapsed time at t2 equal the elapsed time at t1 |
| Playback.VinylPlayer.Stop | src/reproductor_musica.py:520-522 | the backend gets a stop and the clock is reset |
| Playback.VinylPlayer.Advanced | src/reproductor_musica.py:527-534 | what next_track leaves: the list kept; nothing else changed on an empty list; otherwise the cursor on get_next_index of the old cursor and that track loaded as load_and_play does |
| Playback.VinylPlayer.NextTrack | src/reproductor_musica.py:527-534 | no-op on an empty list; otherwise the cursor is set to get_next_index before that track is loaded |
| Playback.VinylPlayer.PrevTrack | src/reproductor_musica.py:536-543 | no-op on an empty list; otherwise the cursor is set to get_prev_index before that track is loaded |
| Playback.VinylPlayer.HandleTrackEnd | src/reproductor_musica.py:711-715 | under repeat-one the same index is reloaded, otherwise next_track runs; both end as next_track would |
| Playback.VinylPlayer.UpdateUi | src/reproductor_musica.py:683-691 | a tick handles an end of track exactly when a track plays, is not paused and the backend is idle, whatever the elapsed time; otherwise it changes nothing |
| Playback.VinylPlayer.SeekEnd | src/reproductor_musica.py:626-651 | no-op unless playing a track of known length; otherwise it logs play from the position, then a pause if paused; the pause state is kept; the clock is re-anchored so that the elapsed time at `now` is the position |
| Playback.VinylPlayer.ToggleRepeat | src/reproductor_musica.py:593-595 | repeat flips between 0 and 1, and nothing else changes |

## Left out

- The tkinter window, the listbox and its search filter, dialogs, message boxes, key bindings and the `root.after` scheduling are user interface.
  - The mapping of a filtered row back to a list position (`filtered_indices`) is UI only. `PlayPause` takes the selection already mapped to a list position.
  - The `user_dragging` flag is UI only.
- `VinylVisualizer` is left out: drawing, rotation angles and cover extraction.
- Volume, and the progress-bar and label updates in `load_and_play` and `_update_progress_display`, are left out: float clamps feeding widgets.
- `_probe_length` is not part of this model. The length it probes is the `probedLength` input.
- `add_folder`'s recursive directory walk is a filesystem traversal. `AddFolder` takes the walked paths as a sequence.
- `AddFolder`: the count is the length of the filtered batch, not a counter increased inside the loop; the two are equal.
- `Playlist.PlaylistManager.RemoveItems`: the deletion loop is the `RemoveSorted` method over the list and cursor as one value; the method assigns its result to the two fields once the loop is done. Nothing can observe the difference.
- `AddFiles` and `AddFolder`: the filtering loop is the `FilterSupported` method, and its result is appended in one step. The source appends to the list file by file; nothing can observe the difference.
- `Playlist.Shuffle`: the order `random.shuffle` picks is left open. The model only promises a permutation.
- `Playback.VinylPlayer.ElapsedTime`: times are whole milliseconds, not floats. Likewise the 0.25 s end-of-track threshold is 250 ms; it cannot change the outcome, since both branches do the same.
- `Playback.VinylPlayer.SeekEnd`: the slider position is a whole number of milliseconds. The source reads `time.time()` twice; one `now` stands for both.
- `Playback.VinylPlayer.SeekEnd`: the inner `else` after the second length test is left out. That test repeats the guard above it, so the `else` cannot run.
- Backend exceptions caught in `_seek_end` are not modelled: the calls are logged as made.
- `AudioFormats.IsSupported` models POSIX paths and ASCII lower-casing only. Windows separators and non-ASCII case folding are not modelled.

## Behaviour worth knowing

The model keeps each of these behaviours of the code, though a reader might expect otherwise:
- **Failed load.** One might expect a failed load to stop playback. The code leaves the clock as it was.
  - If a track was playing, it still counts as playing.
  - So if the next track fails to load at an end of track, the following tick sees an idle backend and advances again.
- **Previous with no current track.** `get_prev_index` with no current track (-1) lands on the last but one track, not the last one.
- **No exhaustion.** The playlist is never exhausted: next wraps around.
- **Snapshot while shuffled.** `original_order` is retaken after every add or remove, even while shuffled. So shuffle-off after an edit restores the edited list, not the order from before the shuffle.
- **End of track.** The two branches of the end-of-track test do the same thing. Repeat-one reloads the current index, which is also what get_next_index gives under repeat-one, so `HandleTrackEnd` always ends as `NextTrack` does.
- **Unreachable guards.** Two checks never fire under the invariant `PlaylistManager.Valid`, which every public operation keeps:
  - the clamp at the end of `remove_items`;
  - the "track not present" case of `_restore_original_order`.
