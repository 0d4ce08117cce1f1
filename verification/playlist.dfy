/** The playlist store of the player: an ordered list of track paths, a cursor
    on the current track (-1 when there is none), the repeat and shuffle modes
    and the snapshot of the order to go back to when shuffle is turned off. */
module Playlist {
  import opened Wrappers
  import opened AudioFormats

  // ---------------------------------------------------------------------------
  // Moving the cursor: get_next_index and get_prev_index
  // ---------------------------------------------------------------------------

  /** get_next_index over a playlist of `count` tracks: -1 on an empty list,
      the same track under repeat-one, else the following track, wrapping
      from the last track to the first. */
  function NextIndex(count: nat, current: int, repeatMode: int): (r: int)
    ensures count == 0 ==> r == -1
    ensures count > 0 && repeatMode == 1 ==> r == current
    ensures count > 0 && repeatMode != 1 ==> 0 <= r < count
    ensures count > 0 && repeatMode != 1 && -1 <= current < count - 1 ==> r == current + 1
    ensures count > 0 && repeatMode != 1 && current == count - 1 ==> r == 0
  {
    if count == 0 then -1
    else if repeatMode == 1 then current
    else (current + 1) % count
  }

  /** get_prev_index: -1 on an empty list, the same track under repeat-one,
      else the preceding track, wrapping from the first track to the last.
      With no current track (-1) it lands on the last but one. */
  function PrevIndex(count: nat, current: int, repeatMode: int): (r: int)
    ensures count == 0 ==> r == -1
    ensures count > 0 && repeatMode == 1 ==> r == current
    ensures count > 0 && repeatMode != 1 ==> 0 <= r < count
    ensures count > 0 && repeatMode != 1 && 0 < current < count ==> r == current - 1
    ensures count > 0 && repeatMode != 1 && current == 0 ==> r == count - 1
    ensures count > 0 && repeatMode != 1 && current == -1 ==> r == (if count == 1 then 0 else count - 2)
  {
    if count == 0 then -1
    else if repeatMode == 1 then current
    else (current - 1) % count
  }

  /** Next and previous undo each other on every track of a non-empty list. */
  lemma NextPrevInverse(count: nat, current: int, repeatMode: int)
    requires 0 <= current < count
    ensures PrevIndex(count, NextIndex(count, current, repeatMode), repeatMode) == current
    ensures NextIndex(count, PrevIndex(count, current, repeatMode), repeatMode) == current
  {
  }

  /** The cursor after `k` successive next-track steps from `current`. */
  function Advance(count: nat, current: int, repeatMode: int, k: nat): int
  {
    if k == 0 then current else NextIndex(count, Advance(count, current, repeatMode, k - 1), repeatMode)
  }

  /** The cursor after `k` successive previous-track steps from `current`. */
  function Retreat(count: nat, current: int, repeatMode: int, k: nat): int
  {
    if k == 0 then current else PrevIndex(count, Retreat(count, current, repeatMode, k - 1), repeatMode)
  }

  /** Without repeat-one, k next-track steps (k at most the length) move the
      cursor k places forward around the circle of tracks. */
  lemma {:induction false} AdvanceSteps(count: nat, current: int, repeatMode: int, k: nat)
    requires repeatMode != 1 && 0 <= current < count && k <= count
    ensures Advance(count, current, repeatMode, k) == if current + k < count then current + k else current + k - count
  {
    if k > 0 {
      AdvanceSteps(count, current, repeatMode, k - 1);
    }
  }

  /** Without repeat-one, k previous-track steps (k at most the length) move
      the cursor k places backward around the circle of tracks. */
  lemma {:induction false} RetreatSteps(count: nat, current: int, repeatMode: int, k: nat)
    requires repeatMode != 1 && 0 <= current < count && k <= count
    ensures Retreat(count, current, repeatMode, k) == if current - k >= 0 then current - k else current - k + count
  {
    if k > 0 {
      RetreatSteps(count, current, repeatMode, k - 1);
    }
  }

  /** Stepping forward, or backward, as many times as there are tracks comes
      back to the starting track. */
  lemma FullCycle(count: nat, current: int, repeatMode: int)
    requires repeatMode != 1 && 0 <= current < count
    ensures Advance(count, current, repeatMode, count) == current
    ensures Retreat(count, current, repeatMode, count) == current
  {
    AdvanceSteps(count, current, repeatMode, count);
    RetreatSteps(count, current, repeatMode, count);
  }

  /** Under repeat-one no number of steps moves the cursor. */
  lemma {:induction false} RepeatOneStays(count: nat, current: int, k: nat)
    requires count > 0
    ensures Advance(count, current, 1, k) == current
    ensures Retreat(count, current, 1, k) == current
  {
    if k > 0 {
      RepeatOneStays(count, current, k - 1);
    }
  }

  // ---------------------------------------------------------------------------
  // Removing tracks: remove_items
  // ---------------------------------------------------------------------------

  /** A playlist together with its cursor. */
  datatype Listing = Listing(tracks: seq<string>, current: int)

  predicate Descending(xs: seq<int>)
  {
    forall i, j :: 0 <= i < j < |xs| ==> xs[i] >= xs[j]
  }

  predicate StrictlyDescending(xs: seq<int>)
  {
    forall i, j :: 0 <= i < j < |xs| ==> xs[i] > xs[j]
  }

  predicate Distinct<T(==)>(xs: seq<T>)
  {
    forall i, j :: 0 <= i < j < |xs| ==> xs[i] != xs[j]
  }

  /** Inserts `x` in front of the first element it is not below. */
  function InsertDescending(x: int, xs: seq<int>): (r: seq<int>)
    ensures multiset(r) == multiset(xs) + multiset{x}
  {
    if xs == [] || x >= xs[0] then [x] + xs
    else
      assert xs == [xs[0]] + xs[1..];
      [xs[0]] + InsertDescending(x, xs[1..])
  }

  /** `sorted(indices, reverse=True)`: the same indices, from high to low
      (SortedDescending proves the order). */
  function SortDescending(xs: seq<int>): (r: seq<int>)
    ensures multiset(r) == multiset(xs)
  {
    if xs == [] then []
    else
      assert xs == [xs[0]] + xs[1..];
      InsertDescending(xs[0], SortDescending(xs[1..]))
  }

  /** Inserting into a list sorted from high to low keeps it so. */
  lemma {:induction false} InsertKeepsDescending(x: int, xs: seq<int>)
    requires Descending(xs)
    ensures Descending(InsertDescending(x, xs))
    ensures InsertDescending(x, xs)[0] == x || (xs != [] && InsertDescending(x, xs)[0] == xs[0])
    decreases |xs|
  {
    if xs != [] && x < xs[0] {
      InsertKeepsDescending(x, xs[1..]);
    }
  }

  /** SortDescending sorts from high to low. */
  lemma {:induction false} SortedDescending(xs: seq<int>)
    ensures Descending(SortDescending(xs))
    decreases |xs|
  {
    if xs != [] {
      SortedDescending(xs[1..]);
      InsertKeepsDescending(xs[0], SortDescending(xs[1..]));
    }
  }

  /** A list without repetitions holds each value at most once. */
  lemma {:induction false} DistinctCount<T>(xs: seq<T>, v: T)
    requires Distinct(xs)
    ensures multiset(xs)[v] <= 1
    decreases |xs|
  {
    if xs != [] {
      var p := xs[..|xs| - 1];
      assert xs == p + [xs[|xs| - 1]];
      assert Distinct(p);
      DistinctCount(p, v);
      if xs[|xs| - 1] == v {
        assert v !in p;
      }
    }
  }

  /** Sorting indices that are all different gives a strictly falling list. */
  lemma SortDistinct(xs: seq<int>)
    requires Distinct(xs)
    ensures StrictlyDescending(SortDescending(xs))
  {
    var r := SortDescending(xs);
    SortedDescending(xs);
    forall i, j | 0 <= i < j < |r| ensures r[i] > r[j] {
      if r[i] == r[j] {
        TwoPlaces(r, i, j);
        DistinctCount(xs, r[i]);
        assert false;
      }
    }
  }

  /** A value found at two places is counted at least twice. */
  lemma TwoPlaces(r: seq<int>, i: nat, j: nat)
    requires i < j < |r| && r[i] == r[j]
    ensures multiset(r)[r[i]] >= 2
  {
    assert r == r[..j] + r[j..];
    assert r[..j][i] == r[i];
    assert r[j..][0] == r[i];
    assert multiset(r[..j])[r[i]] >= 1;
    assert multiset(r[j..])[r[i]] >= 1;
  }

  /** One pass of remove_items' loop: delete position `idx` if it is in range,
      and move the cursor so that it stays on the track it was on, or on none
      when that track is the one deleted. */
  function RemoveStep(l: Listing, idx: int): (r: Listing)
    ensures !(0 <= idx < |l.tracks|) ==> r == l
    ensures 0 <= idx < |l.tracks| ==> r.tracks == l.tracks[..idx] + l.tracks[idx + 1..]
    ensures -1 <= l.current < |l.tracks| ==> -1 <= r.current < |r.tracks|
    ensures 0 <= idx < |l.tracks| && idx == l.current ==> r.current == -1
    ensures 0 <= idx < |l.tracks| && 0 <= l.current < |l.tracks| && idx != l.current ==>
              0 <= r.current < |r.tracks| && r.tracks[r.current] == l.tracks[l.current]
  {
    if 0 <= idx < |l.tracks| then
      Listing(l.tracks[..idx] + l.tracks[idx + 1..],
              if idx == l.current then -1 else if idx < l.current then l.current - 1 else l.current)
    else l
  }

  /** The loop of remove_items over indices already sorted from high to low. */
  function Removal(l: Listing, order: seq<int>): (r: Listing)
    ensures |r.tracks| <= |l.tracks|
    ensures forall x :: x in r.tracks ==> x in l.tracks
    ensures -1 <= l.current < |l.tracks| ==> -1 <= r.current < |r.tracks|
  {
    if order == [] then l
    else
      var p := Removal(l, order[..|order| - 1]);
      var r := RemoveStep(p, order[|order| - 1]);
      assert forall x :: x in r.tracks ==> x in p.tracks by {
        var idx := order[|order| - 1];
        if 0 <= idx < |p.tracks| {
          assert p.tracks == p.tracks[..idx] + [p.tracks[idx]] + p.tracks[idx + 1..];
        }
      }
      r
  }

  /** The removal loop only deletes: every track it leaves was on the list at
      least as many times before, for any indices, repeated ones included. */
  lemma {:induction false} RemovalOnlyDeletes(l: Listing, order: seq<int>)
    ensures multiset(Removal(l, order).tracks) <= multiset(l.tracks)
    decreases |order|
  {
    if order != [] {
      var p := Removal(l, order[..|order| - 1]);
      var idx := order[|order| - 1];
      RemovalOnlyDeletes(l, order[..|order| - 1]);
      if 0 <= idx < |p.tracks| {
        MultisetRemoveAt(p.tracks, idx);
      }
    }
  }

  /** The positions among `ds` that fall inside a list of `n` tracks. */
  ghost function InRange(ds: seq<int>, n: int): set<int>
  {
    set x | x in ds && 0 <= x < n
  }

  /** `s` with the tracks at the positions in `drop` taken out, the others
      kept in their order. */
  function Without(s: seq<string>, drop: set<int>): (r: seq<string>)
    ensures |r| <= |s|
  {
    if s == [] then []
    else Without(s[..|s| - 1], drop) + (if |s| - 1 in drop then [] else [s[|s| - 1]])
  }

  /** Where the cursor `c` ends up once the positions in `drop` are gone: -1
      if its own track went, else moved down by the number of tracks that
      went before it. */
  ghost function CursorAfter(c: int, drop: set<int>): int
  {
    if c in drop then -1 else c - |set x | x in drop && x < c|
  }

  lemma {:induction false} WithoutNothing(s: seq<string>, drop: set<int>)
    requires forall x :: x in drop ==> x < 0 || x >= |s|
    ensures Without(s, drop) == s
    decreases |s|
  {
    if s != [] {
      WithoutNothing(s[..|s| - 1], drop);
    }
  }

  /** Dropping one more position, below all the dropped ones, deletes it from
      the list that is left: the tracks up to it are still in their places. */
  lemma {:induction false} WithoutDeleteBelow(s: seq<string>, drop: set<int>, d: int)
    requires 0 <= d < |s|
    requires forall x :: x in drop ==> x > d
    ensures |Without(s, drop)| > d
    ensures Without(s, drop + {d}) == Without(s, drop)[..d] + Without(s, drop)[d + 1..]
    decreases |s|
  {
    var p := s[..|s| - 1];
    if |s| == d + 1 {
      WithoutNothing(p, drop);
      WithoutNothing(p, drop + {d});
      assert Without(s, drop) == p + [s[d]];
    } else {
      WithoutDeleteBelow(p, drop, d);
      var t := if |s| - 1 in drop then [] else [s[|s| - 1]];
      var w := Without(p, drop);
      assert Without(s, drop) == w + t;
      assert Without(s, drop + {d}) == w[..d] + w[d + 1..] + t;
      assert (w + t)[..d] == w[..d];
      assert (w + t)[d + 1..] == w[d + 1..] + t;
    }
  }

  /** A set of integers strictly between `lo` and `hi` has fewer than hi - lo elements. */
  lemma {:induction false} CardBetween(b: set<int>, lo: int, hi: int)
    requires lo < hi
    requires forall x :: x in b ==> lo < x < hi
    ensures |b| <= hi - lo - 1
    decreases hi - lo
  {
    if hi - lo > 1 {
      CardBetween(b - {hi - 1}, lo, hi - 1);
    } else {
      assert forall x :: x !in b;
    }
  }

  /** The cursor rule of one deletion agrees with CursorAfter when the
      deleted position is below all those deleted before it. */
  lemma CursorAfterStep(c: int, drop: set<int>, d: int)
    requires -1 <= c && 0 <= d
    requires forall x :: x in drop ==> x > d
    ensures var c' := CursorAfter(c, drop);
      CursorAfter(c, drop + {d}) == if d == c' then -1 else if d < c' then c' - 1 else c'
  {
    var below := set x | x in drop && x < c;
    var below' := set x | x in drop + {d} && x < c;
    if c !in drop {
      if d == c {
        assert below == {};
      } else if d < c {
        assert below' == below + {d};
        CardBetween(below, d, c);
      } else {
        assert below' == below;
      }
    }
  }

  /** One deletion, below every position deleted so far, carries the
      closed form of the list and the cursor over to one more position. */
  lemma StepBelowDeleted(s: seq<string>, c: int, drop: set<int>, d: int)
    requires -1 <= c < |s|
    requires forall x :: x in drop ==> x > d
    ensures var drop' := if 0 <= d < |s| then drop + {d} else drop;
      RemoveStep(Listing(Without(s, drop), CursorAfter(c, drop)), d) ==
      Listing(Without(s, drop'), CursorAfter(c, drop'))
  {
    if 0 <= d < |s| {
      WithoutDeleteBelow(s, drop, d);
      CursorAfterStep(c, drop, d);
    }
  }

  /** remove_items with indices that are all different: the tracks at those
      positions (the ones in range) are gone, the rest keep their order, and
      the cursor follows CursorAfter. */
  lemma {:induction false} RemovalOfDistinct(s: seq<string>, c: int, order: seq<int>)
    requires -1 <= c < |s|
    requires StrictlyDescending(order)
    ensures Removal(Listing(s, c), order) == Listing(Without(s, InRange(order, |s|)), CursorAfter(c, InRange(order, |s|)))
    decreases |order|
  {
    if order == [] {
      assert InRange(order, |s|) == {};
      WithoutNothing(s, {});
    } else {
      var prefix := order[..|order| - 1];
      var d := order[|order| - 1];
      var drop := InRange(prefix, |s|);
      RemovalOfDistinct(s, c, prefix);
      InRangeLast(order, |s|);
      StepBelowDeleted(s, c, drop, d);
    }
  }

  /** The last of strictly decreasing indices lies below all the others, and
      it adds itself to the positions asked for when it is in range. */
  lemma InRangeLast(order: seq<int>, n: int)
    requires StrictlyDescending(order) && order != []
    ensures var prefix, d := order[..|order| - 1], order[|order| - 1];
      (forall x :: x in InRange(prefix, n) ==> x > d) &&
      InRange(order, n) == (if 0 <= d < n then InRange(prefix, n) + {d} else InRange(prefix, n))
  {
    var prefix, d := order[..|order| - 1], order[|order| - 1];
    forall x | x in InRange(prefix, n) ensures x > d {
      var i :| 0 <= i < |prefix| && prefix[i] == x;
      assert order[i] > order[|order| - 1];
    }
    assert order == prefix + [d];
  }

  /** The deletion loop of remove_items: each index, in the order given,
      deletes its position when it is on the list and moves the cursor. */
  method RemoveSorted(l: Listing, order: seq<int>) returns (r: Listing)
    ensures r == Removal(l, order)
  {
    r := l;
    for i := 0 to |order|
      invariant r == Removal(l, order[..i])
    {
      var idx := order[i];
      var tracks, current := r.tracks, r.current;
      if 0 <= idx < |tracks| {
        tracks := tracks[..idx] + tracks[idx + 1..];
        if idx == current {
          current := -1;
        } else if idx < current {
          current := current - 1;
        }
      }
      assert Listing(tracks, current) == RemoveStep(r, idx);
      assert order[..i + 1][..i] == order[..i];
      r := Listing(tracks, current);
    }
    assert order[..|order|] == order;
  }

  /** remove_items' loop, run over `sorted(indices, reverse=True)` for
      indices that are all different, removes exactly the positions asked for
      (those in range) and moves the cursor as CursorAfter says. */
  lemma RemoveDistinctIndices(s: seq<string>, c: int, indices: seq<int>)
    requires -1 <= c < |s|
    requires Distinct(indices)
    ensures Removal(Listing(s, c), SortDescending(indices)) ==
            Listing(Without(s, InRange(indices, |s|)), CursorAfter(c, InRange(indices, |s|)))
  {
    SortDistinct(indices);
    RemovalOfDistinct(s, c, SortDescending(indices));
    InRangeSorted(indices, |s|);
  }

  /** Sorting does not change which positions are asked for. */
  lemma InRangeSorted(indices: seq<int>, n: int)
    ensures InRange(SortDescending(indices), n) == InRange(indices, n)
  {
    var r := SortDescending(indices);
    forall x ensures x in r <==> x in indices {
      assert x in r <==> x in multiset(r);
      assert x in indices <==> x in multiset(indices);
    }
  }

  /** The worked case: from [A, B, C] on B, removing position 0 leaves
      [B, C] on B. */
  lemma RemoveBelowCursorExample()
    ensures Removal(Listing(["A", "B", "C"], 1), SortDescending([0])) == Listing(["B", "C"], 0)
  {
    assert SortDescending([0]) == [0];
    assert [0][..0] == [];
  }

  /** A repeated index is not merged: [0, 0] deletes position 0 twice, that
      is, the first two tracks. */
  lemma RepeatedIndexExample()
    ensures Removal(Listing(["A", "B", "C"], 2), SortDescending([0, 0])) == Listing(["C"], 0)
  {
    var order := SortDescending([0, 0]);
    assert multiset(order) == multiset{0, 0};
    assert order == [0, 0] by {
      assert |order| == 2;
      assert order[0] in multiset(order) && order[1] in multiset(order);
    }
    assert order[..1] == [0] && order[..1][..0] == [];
  }

  // ---------------------------------------------------------------------------
  // Shuffle helpers
  // ---------------------------------------------------------------------------

  /** `list.index(x)`: the first position of `x`. */
  function IndexOf(s: seq<string>, x: string): (r: nat)
    requires x in s
    ensures r < |s| && s[r] == x
    ensures forall j :: 0 <= j < r ==> s[j] != x
  {
    if s[0] == x then 0 else 1 + IndexOf(s[1..], x)
  }

  /** In a list without repetitions a track's first position is its position. */
  lemma IndexOfDistinct(s: seq<string>, i: nat)
    requires Distinct(s) && i < |s|
    ensures IndexOf(s, s[i]) == i
  {
  }

  /** Taking out the element at `i` takes one copy of it out of the multiset. */
  lemma MultisetRemoveAt<T>(s: seq<T>, i: nat)
    requires i < |s|
    ensures multiset(s) == multiset(s[..i] + s[i + 1..]) + multiset{s[i]}
  {
    assert s == s[..i] + [s[i]] + s[i + 1..];
  }

  /** _apply_shuffle with a truthy current track: that track in front of any
      reordering of the others is a shuffle of the list, with the cursor on 0. */
  lemma ShuffleAroundCurrent(before: Listing, shuffled: seq<string>)
    requires 0 <= before.current < |before.tracks|
    requires Truthy(Some(before.tracks[before.current]))
    requires multiset(shuffled) == multiset(before.tracks[..before.current] + before.tracks[before.current + 1..])
    requires "" !in before.tracks
    ensures Shuffled(before, Listing([before.tracks[before.current]] + shuffled, 0))
    ensures multiset([before.tracks[before.current]] + shuffled) == multiset(before.tracks)
    ensures "" !in [before.tracks[before.current]] + shuffled
  {
    var after := [before.tracks[before.current]] + shuffled;
    MultisetRemoveAt(before.tracks, before.current);
    assert multiset(after) == multiset(before.tracks);
    assert |multiset(after)| == |multiset(before.tracks)|;
    assert "" !in multiset(before.tracks);
  }

  /** _apply_shuffle with no truthy current track: any reordering of the whole
      list is a shuffle of it, with the cursor left where it was. */
  lemma ShuffleWhole(before: Listing, shuffled: seq<string>)
    requires -1 <= before.current < |before.tracks| && before.tracks != []
    requires !Truthy(if before.current >= 0 then Some(before.tracks[before.current]) else None)
    requires multiset(shuffled) == multiset(before.tracks)
    requires "" !in before.tracks
    ensures Shuffled(before, Listing(shuffled, before.current))
    ensures |shuffled| == |before.tracks|
    ensures "" !in shuffled
  {
    assert |multiset(shuffled)| == |multiset(before.tracks)|;
    assert "" !in multiset(before.tracks);
  }

  /** random.shuffle: the same tracks in some order; which order is left open. */
  method Shuffle(s: seq<string>) returns (r: seq<string>)
    ensures multiset(r) == multiset(s)
  {
    r :| multiset(r) == multiset(s);
  }

  /** Python truthiness of the current track: None and "" are both false. */
  predicate Truthy(track: Option<string>)
  {
    track.Some? && track.value != ""
  }

  // ---------------------------------------------------------------------------
  // PlaylistManager
  // ---------------------------------------------------------------------------

  /** What _apply_shuffle leaves, given the list and cursor it started from:
      nothing moves on an empty list; otherwise the list is a reordering of
      the old one, with the current track (if any) first and the cursor on it. */
  ghost predicate Shuffled(before: Listing, after: Listing)
    requires -1 <= before.current < |before.tracks|
  {
    if before.tracks == [] then after == before
    else
      multiset(after.tracks) == multiset(before.tracks) &&
      if Truthy(if before.current >= 0 then Some(before.tracks[before.current]) else None)
      then after.current == 0 && after.tracks[0] == before.tracks[before.current]
      else after.current == before.current
  }

  /** What _restore_original_order leaves, given the snapshot: nothing changes
      if the snapshot is empty; otherwise the list is the snapshot, and the
      cursor moves to the first place of the track it was on, when that track
      is truthy and present, and stays put otherwise. */
  ghost predicate Restored(snapshot: seq<string>, before: Listing, after: Listing)
    requires -1 <= before.current < |before.tracks|
  {
    if snapshot == [] then after == before
    else
      after.tracks == snapshot &&
      var track := if before.current >= 0 then Some(before.tracks[before.current]) else None;
      if Truthy(track) && track.value in snapshot
      then after.current == IndexOf(snapshot, track.value)
      else after.current == before.current
  }

  /** The steps of _apply_shuffle on a list and its cursor: the current track
      (if truthy) is taken out, the rest is shuffled, and the track is put
      back in front with the cursor on it. */
  method ShuffleListing(before: Listing) returns (after: Listing)
    requires -1 <= before.current < |before.tracks|
    requires "" !in before.tracks
    ensures Shuffled(before, after)
    ensures multiset(after.tracks) == multiset(before.tracks)
    ensures -1 <= after.current < |after.tracks|
    ensures "" !in after.tracks
  {
    if before.tracks == [] {
      return before;
    }
    var currentTrack := if before.current >= 0 then Some(before.tracks[before.current]) else None;
    if Truthy(currentTrack) {
      var shuffled := Shuffle(before.tracks[..before.current] + before.tracks[before.current + 1..]);
      ShuffleAroundCurrent(before, shuffled);
      after := Listing([currentTrack.value] + shuffled, 0);
    } else {
      var shuffled := Shuffle(before.tracks);
      ShuffleWhole(before, shuffled);
      after := Listing(shuffled, before.current);
    }
  }

  class PlaylistManager {
    var playlist: seq<string>
    var originalOrder: seq<string>
    var currentIndex: int
    var repeatMode: int
    var shuffleMode: bool

    /** What every operation keeps, whatever the shuffle mode: the cursor is on
        a track or -1, repeat is 0 (off) or 1 (one), the snapshot holds the
        same tracks as the list, and no track is the empty path. */
    ghost predicate Consistent()
      reads this
    {
      -1 <= currentIndex < |playlist| &&
      (repeatMode == 0 || repeatMode == 1) &&
      multiset(originalOrder) == multiset(playlist) &&
      "" !in playlist
    }

    /** Consistent, and out of shuffle the snapshot is the list itself. */
    ghost predicate Valid()
      reads this
    {
      Consistent() && (!shuffleMode ==> originalOrder == playlist)
    }

    constructor ()
      ensures Valid()
      ensures playlist == [] && originalOrder == [] && currentIndex == -1
      ensures repeatMode == 0 && !shuffleMode
    {
      playlist := [];
      originalOrder := [];
      currentIndex := -1;
      repeatMode := 0;
      shuffleMode := false;
    }

    /** get_next_index on this list and cursor. */
    function GetNextIndex(): (r: int)
      reads this
      ensures Valid() ==> -1 <= r < |playlist|
      ensures playlist != [] && repeatMode != 1 ==> 0 <= r < |playlist|
    {
      NextIndex(|playlist|, currentIndex, repeatMode)
    }

    /** get_prev_index on this list and cursor. */
    function GetPrevIndex(): (r: int)
      reads this
      ensures Valid() ==> -1 <= r < |playlist|
      ensures playlist != [] && repeatMode != 1 ==> 0 <= r < |playlist|
    {
      PrevIndex(|playlist|, currentIndex, repeatMode)
    }

    /** add_files: appends the supported files in their order and retakes the snapshot. */
    method AddFiles(files: seq<string>)
      requires Valid()
      modifies this
      ensures Valid()
      ensures playlist == old(playlist) + Supported(files)
      ensures originalOrder == playlist
      ensures currentIndex == old(currentIndex)
      ensures repeatMode == old(repeatMode) && shuffleMode == old(shuffleMode)
    {
      var kept := FilterSupported(files);
      EmptyPathUnsupported(files);
      playlist := playlist + kept;
      originalOrder := playlist;
    }

    /** add_folder over the files a recursive walk of the folder produced:
        appends the supported ones, retakes the snapshot, returns how many. */
    method AddFolder(walk: seq<string>) returns (added: nat)
      requires Valid()
      modifies this
      ensures Valid()
      ensures playlist == old(playlist) + Supported(walk)
      ensures added == |Supported(walk)|
      ensures originalOrder == playlist
      ensures currentIndex == old(currentIndex)
      ensures repeatMode == old(repeatMode) && shuffleMode == old(shuffleMode)
    {
      var kept := FilterSupported(walk);
      EmptyPathUnsupported(walk);
      playlist := playlist + kept;
      added := |kept|;
      originalOrder := playlist;
    }

    /** remove_items: deletes the given positions from the highest to the
        lowest, moving the cursor as it goes, then retakes the snapshot. */
    method RemoveItems(indices: seq<int>)
      requires Valid()
      modifies this
      ensures Valid()
      ensures Listing(playlist, currentIndex) == Removal(Listing(old(playlist), old(currentIndex)), SortDescending(indices))
      ensures Distinct(indices) ==>
                playlist == Without(old(playlist), InRange(indices, |old(playlist)|)) &&
                currentIndex == CursorAfter(old(currentIndex), InRange(indices, |old(playlist)|))
      ensures originalOrder == playlist
      ensures repeatMode == old(repeatMode) && shuffleMode == old(shuffleMode)
    {
      var after := RemoveSorted(Listing(playlist, currentIndex), SortDescending(indices));
      assert -1 <= after.current < |after.tracks| && "" !in after.tracks;
      playlist, currentIndex := after.tracks, after.current;
      originalOrder := playlist;
      // The cursor is already in range here (Removal keeps it so); the clamp
      // of the source is kept as written.
      currentIndex := if |playlist| > 0 && currentIndex >= |playlist| then |playlist| - 1 else currentIndex;
      if Distinct(indices) {
        RemoveDistinctIndices(old(playlist), old(currentIndex), indices);
      }
    }

    /** clear: empties the list and the snapshot and drops the cursor. */
    method Clear()
      requires Valid()
      modifies this
      ensures Valid()
      ensures playlist == [] && originalOrder == [] && currentIndex == -1
      ensures repeatMode == old(repeatMode) && shuffleMode == old(shuffleMode)
    {
      playlist := [];
      originalOrder := [];
      currentIndex := -1;
    }

    /** toggle_shuffle: flips the mode, then shuffles or restores. */
    method ToggleShuffle()
      requires Valid()
      modifies this
      ensures Valid()
      ensures shuffleMode == !old(shuffleMode)
      ensures originalOrder == old(originalOrder) && repeatMode == old(repeatMode)
      ensures !old(shuffleMode) ==> Shuffled(Listing(old(playlist), old(currentIndex)), Listing(playlist, currentIndex))
      ensures old(shuffleMode) ==> Restored(originalOrder, Listing(old(playlist), old(currentIndex)), Listing(playlist, currentIndex))
    {
      shuffleMode := !shuffleMode;
      if shuffleMode {
        ApplyShuffle();
      } else {
        RestoreOriginalOrder();
      }
    }

    /** _apply_shuffle: takes the current track out, shuffles the rest into
        some order, and puts the current track back in front. */
    method ApplyShuffle()
      requires Consistent()
      modifies this
      ensures Consistent()
      ensures Shuffled(Listing(old(playlist), old(currentIndex)), Listing(playlist, currentIndex))
      ensures originalOrder == old(originalOrder)
      ensures repeatMode == old(repeatMode) && shuffleMode == old(shuffleMode)
    {
      var after := ShuffleListing(Listing(playlist, currentIndex));
      playlist, currentIndex := after.tracks, after.current;
    }

    /** _restore_original_order: puts the snapshot back and looks the current
        track up in it. */
    method RestoreOriginalOrder()
      requires Consistent()
      modifies this
      ensures Consistent()
      ensures Restored(originalOrder, Listing(old(playlist), old(currentIndex)), Listing(playlist, currentIndex))
      ensures originalOrder == old(originalOrder)
      ensures repeatMode == old(repeatMode) && shuffleMode == old(shuffleMode)
    {
      if originalOrder == [] {
        return;
      }
      var currentTrack := if currentIndex >= 0 then Some(playlist[currentIndex]) else None;
      assert |originalOrder| == |multiset(originalOrder)| == |playlist|;
      assert "" !in originalOrder by {
        assert forall x :: x in originalOrder ==> x in multiset(playlist);
      }
      // The snapshot holds the same tracks as the list, so a current track is
      // always present in it; the membership test of the source is kept as written.
      assert currentIndex >= 0 ==> playlist[currentIndex] in originalOrder by {
        if currentIndex >= 0 {
          assert playlist[currentIndex] in multiset(playlist);
        }
      }
      playlist := originalOrder;
      if Truthy(currentTrack) && currentTrack.value in playlist {
        currentIndex := IndexOf(playlist, currentTrack.value);
      }
    }

    /** Shuffle on and straight off again: the list comes back exactly, and the
        cursor comes back to the first place of its track (to its own place
        when the list has no repeated tracks). */
    method ToggleShuffleTwice()
      requires Valid() && !shuffleMode
      modifies this
      ensures Valid() && !shuffleMode
      ensures playlist == old(playlist) && originalOrder == old(originalOrder)
      ensures old(currentIndex) == -1 ==> currentIndex == -1
      ensures old(currentIndex) >= 0 ==> currentIndex == IndexOf(playlist, playlist[old(currentIndex)])
      ensures Distinct(old(playlist)) ==> currentIndex == old(currentIndex)
    {
      ToggleShuffle();
      ToggleShuffle();
      if Distinct(playlist) && currentIndex >= 0 {
        IndexOfDistinct(playlist, old(currentIndex));
      }
    }
  }
}
