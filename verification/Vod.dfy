/** Seeking in a recorded asset (crates/mp4/src/vod.rs, `playback`). */
module Vod {
  import opened Bytes
  import opened Frames

  function Time(f: MediaFrame): nat {
    Min(Min(f.dts, f.pts), f.timestamp)
  }

  predicate IsKey(f: MediaFrame) {
    !f.configFrame && f.frameType == Video && f.keyFrame
  }

  predicate IsMedia(f: MediaFrame) {
    !f.configFrame
  }

  function FirstTime(fs: seq<MediaFrame>, p: MediaFrame -> bool): Option<nat> {
    if fs == [] then None else if p(fs[0]) then Some(Time(fs[0])) else FirstTime(fs[1..], p)
  }

  /** The latest time, not after `limit`, of the frames with a property. */
  function LatestTime(fs: seq<MediaFrame>, p: MediaFrame -> bool, limit: nat): (r: Option<nat>)
  {
    if fs == [] then None
    else
      var rest := LatestTime(fs[1..], p, limit);
      if !p(fs[0]) || Time(fs[0]) > limit then rest
      else if rest.None? || rest.value < Time(fs[0]) then Some(Time(fs[0])) else rest
  }

  function StartMs(fs: seq<MediaFrame>, requested: nat): nat {
    var selected := LatestTime(fs, IsKey, requested);
    if selected.Some? then selected.value
    else
      var first := FirstTime(fs, IsKey);
      if first.Some? then first.value
      else
        var latest := LatestTime(fs, IsMedia, requested);
        if latest.Some? then latest.value
        else
          var any := FirstTime(fs, IsMedia);
          if any.Some? then any.value else 0
  }

  /** The three times of a frame relative to `start`, as the saturating code computes them. */
  function Rebased(f: MediaFrame, start: nat): MediaFrame {
    f.(timestamp := SatSub(f.timestamp, start), pts := SatSub(f.pts, start), dts := SatSub(f.dts, start))
  }

  /** The frames with a property, in the order of the list. */
  function Filter(fs: seq<MediaFrame>, p: MediaFrame -> bool): seq<MediaFrame> {
    if fs == [] then []
    else
      var last := fs[|fs| - 1];
      Filter(fs[..|fs| - 1], p) + if p(last) then [last] else []
  }

  predicate IsConfig(f: MediaFrame) {
    f.configFrame
  }

  function PlaysFrom(start: nat): MediaFrame -> bool {
    f => IsMedia(f) && start <= Time(f)
  }

  function Configs(fs: seq<MediaFrame>): seq<MediaFrame> {
    Filter(fs, IsConfig)
  }

  function From(fs: seq<MediaFrame>, start: nat): seq<MediaFrame> {
    Filter(fs, PlaysFrom(start))
  }

  function RebasedAll(fs: seq<MediaFrame>, start: nat): (r: seq<MediaFrame>)
    ensures |r| == |fs| && forall i :: 0 <= i < |fs| ==> r[i] == Rebased(fs[i], start)
  {
    seq(|fs|, i requires 0 <= i < |fs| => Rebased(fs[i], start))
  }

  datatype Playback = Playback(frames: seq<MediaFrame>, start: nat, duration: nat)

  function PlaybackOf(fs: seq<MediaFrame>, duration: nat, requested: nat): Playback {
    var start := StartMs(fs, requested);
    Playback(Configs(fs) + RebasedAll(From(fs, start), start), start, SatSub(duration, start))
  }

  // ---- the chosen start ----

  lemma {:induction false} LatestIs(fs: seq<MediaFrame>, p: MediaFrame -> bool, limit: nat)
    ensures var r := LatestTime(fs, p, limit);
            && (r.Some? ==> r.value <= limit && exists i :: 0 <= i < |fs| && p(fs[i]) && Time(fs[i]) == r.value)
            && forall i :: 0 <= i < |fs| && p(fs[i]) && Time(fs[i]) <= limit ==> r.Some? && Time(fs[i]) <= r.value
    decreases |fs|
  {
    if fs != [] {
      LatestIs(fs[1..], p, limit);
      var r, rest := LatestTime(fs, p, limit), LatestTime(fs[1..], p, limit);
      if rest.Some? && r == rest {
        var i :| 0 <= i < |fs[1..]| && p(fs[1..][i]) && Time(fs[1..][i]) == rest.value;
        assert p(fs[i + 1]) && Time(fs[i + 1]) == rest.value;
      }
      assert forall i :: 1 <= i < |fs| ==> fs[i] == fs[1..][i - 1];
    }
  }

  lemma {:induction false} FirstIs(fs: seq<MediaFrame>, p: MediaFrame -> bool)
    ensures var r := FirstTime(fs, p);
            && (r.None? <==> forall i :: 0 <= i < |fs| ==> !p(fs[i]))
            && (r.Some? ==> exists i :: 0 <= i < |fs| && p(fs[i]) && Time(fs[i]) == r.value
                              && forall j :: 0 <= j < i ==> !p(fs[j]))
    decreases |fs|
  {
    if fs != [] && !p(fs[0]) {
      FirstIs(fs[1..], p);
      assert forall i :: 1 <= i < |fs| ==> fs[i] == fs[1..][i - 1];
      if FirstTime(fs, p).Some? {
        var i :| 0 <= i < |fs[1..]| && p(fs[1..][i]) && Time(fs[1..][i]) == FirstTime(fs, p).value
                 && forall j :: 0 <= j < i ==> !p(fs[1..][j]);
        assert p(fs[i + 1]) && Time(fs[i + 1]) == FirstTime(fs, p).value;
        assert forall j :: 0 <= j < i + 1 ==> !p(fs[j]);
      }
    }
  }

  predicate HasBy(fs: seq<MediaFrame>, p: MediaFrame -> bool, limit: nat) {
    exists i :: 0 <= i < |fs| && p(fs[i]) && Time(fs[i]) <= limit
  }

  predicate HasKeyBy(fs: seq<MediaFrame>, limit: nat) {
    HasBy(fs, IsKey, limit)
  }

  /** Playback starts at the latest key frame not after the request; without one, at the first key frame listed. */
  lemma {:induction false} StartIsKey(fs: seq<MediaFrame>, requested: nat)
    requires exists i :: 0 <= i < |fs| && IsKey(fs[i])
    ensures var start := StartMs(fs, requested);
            && (exists i :: 0 <= i < |fs| && IsKey(fs[i]) && Time(fs[i]) == start)
            && (HasKeyBy(fs, requested) ==>
                  && start <= requested
                  && forall i :: 0 <= i < |fs| && IsKey(fs[i]) && Time(fs[i]) <= requested ==> Time(fs[i]) <= start)
            && (!HasKeyBy(fs, requested) ==>
                  exists i :: 0 <= i < |fs| && IsKey(fs[i]) && Time(fs[i]) == start
                    && forall j :: 0 <= j < i ==> !IsKey(fs[j]))
  {
    hide LatestTime, FirstTime;
    LatestIs(fs, IsKey, requested);
    FirstIs(fs, IsKey);
  }

  /** The frames playback can start at: key frames, or any media if there is no key frame. */
  function Starts(fs: seq<MediaFrame>): MediaFrame -> bool {
    if FirstTime(fs, IsKey).Some? then IsKey else IsMedia
  }

  /** The start is the latest of them not after the request, or else the first one listed. */
  lemma {:induction false} StartIs(fs: seq<MediaFrame>, requested: nat)
    ensures var p, start := Starts(fs), StartMs(fs, requested);
            if HasBy(fs, p, requested) then
              && start <= requested && (exists i :: 0 <= i < |fs| && p(fs[i]) && Time(fs[i]) == start)
              && forall i :: 0 <= i < |fs| && p(fs[i]) && Time(fs[i]) <= requested ==> Time(fs[i]) <= start
            else start == (if FirstTime(fs, p).Some? then FirstTime(fs, p).value else 0)
  {
    hide LatestTime, FirstTime;
    LatestIs(fs, IsKey, requested);
    LatestIs(fs, IsMedia, requested);
    FirstIs(fs, IsKey);
    FirstIs(fs, IsMedia);
  }

  /** Asking for the chosen start again changes nothing: seeking is idempotent. */
  lemma {:induction false} SeekIsIdempotent(fs: seq<MediaFrame>, duration: nat, requested: nat)
    ensures PlaybackOf(fs, duration, StartMs(fs, requested)) == PlaybackOf(fs, duration, requested)
  {
    hide StartMs, Configs, From, RebasedAll, FirstTime, Starts;
    var start := StartMs(fs, requested);
    StartIs(fs, requested);
    StartIs(fs, start);
    FirstIs(fs, Starts(fs));
  }

  /** A later request starts no earlier if and only if a frame to start at comes by the earlier request, or none
    * comes by the later one, or the first one listed does. */
  lemma {:induction false} SeekIsMonotone(fs: seq<MediaFrame>, a: nat, b: nat)
    requires a <= b
    ensures var p := Starts(fs);
            StartMs(fs, a) <= StartMs(fs, b)
            <==> HasBy(fs, p, a) || !HasBy(fs, p, b) || (FirstTime(fs, p).Some? && FirstTime(fs, p).value <= b)
  {
    hide StartMs, FirstTime, Starts;
    var p := Starts(fs);
    StartIs(fs, a);
    StartIs(fs, b);
    FirstIs(fs, p);
    assert HasBy(fs, p, a) ==> HasBy(fs, p, b);
  }

  /** In a recording in order of time, seeking is always monotone. */
  lemma {:induction false} OrderedSeekIsMonotone(fs: seq<MediaFrame>, a: nat, b: nat)
    requires a <= b && forall i, j :: 0 <= i < j < |fs| ==> Time(fs[i]) <= Time(fs[j])
    ensures StartMs(fs, a) <= StartMs(fs, b)
  {
    hide StartMs, FirstTime, Starts;
    SeekIsMonotone(fs, a, b);
    FirstIs(fs, Starts(fs));
  }

  function KeyAt(time: u32): MediaFrame {
    MediaFrame(1, Video, H264, time, time, time, [], AnnexB, true, false)
  }

  /** With key frames listed at 10 and then at 5, request 3 starts at 10 and request 6 at 5. */
  lemma {:induction false} SeekCanGoBack()
    ensures var fs := [KeyAt(10), KeyAt(5)];
            StartMs(fs, 3) == 10 && StartMs(fs, 6) == 5
  {
    var fs := [KeyAt(10), KeyAt(5)];
    assert fs[1..] == [KeyAt(5)] && fs[1..][1..] == [];
    assert LatestTime([KeyAt(5)], IsKey, 3) == None && LatestTime([KeyAt(5)], IsKey, 6) == Some(5);
  }

  // ---- the frames played ----

  /** `at` lists, in increasing order, exactly the places of `fs` with a property, and `gs` the frames there. */
  ghost predicate Selects(fs: seq<MediaFrame>, p: MediaFrame -> bool, gs: seq<MediaFrame>, at: seq<nat>) {
    && |at| == |gs|
    && (forall i, j :: 0 <= i < j < |at| ==> at[i] < at[j])
    && (forall i :: 0 <= i < |at| ==> at[i] < |fs| && p(fs[at[i]]) && gs[i] == fs[at[i]])
    && (forall k :: 0 <= k < |fs| && p(fs[k]) ==> k in at)
  }

  lemma {:induction false} SelectsMore(fs: seq<MediaFrame>, p: MediaFrame -> bool, gs: seq<MediaFrame>, at: seq<nat>)
    requires fs != [] && Selects(fs[..|fs| - 1], p, gs, at)
    ensures var n := |fs| - 1;
            if p(fs[n]) then Selects(fs, p, gs + [fs[n]], at + [n]) else Selects(fs, p, gs, at)
  {
    var n := |fs| - 1;
    if p(fs[n]) {
      SelectsLast(fs[..n], fs[n], p, gs, at);
      assert fs[..n] + [fs[n]] == fs;
    } else {
      assert forall k :: 0 <= k < n ==> fs[..n][k] == fs[k];
    }
  }

  lemma {:induction false} SelectsLast(
      fs: seq<MediaFrame>, f: MediaFrame, p: MediaFrame -> bool, gs: seq<MediaFrame>, at: seq<nat>)
    requires Selects(fs, p, gs, at) && p(f)
    ensures Selects(fs + [f], p, gs + [f], at + [|fs|])
  {
    var more := at + [|fs|];
    assert more[|at|] == |fs|;
    forall k | 0 <= k < |fs + [f]| && p((fs + [f])[k])
      ensures k in more
    {
      assert k < |fs| ==> k in at;
    }
  }

  lemma {:induction false} FilterSelects(fs: seq<MediaFrame>, p: MediaFrame -> bool) returns (at: seq<nat>)
    ensures Selects(fs, p, Filter(fs, p), at)
  {
    if fs == [] {
      at := [];
    } else {
      hide Selects;
      var n := |fs| - 1;
      var gs := Filter(fs[..n], p);
      at := FilterSelects(fs[..n], p);
      SelectsMore(fs, p, gs, at);
      assert gs + [] == gs;
      if p(fs[n]) {
        at := at + [n];
      }
    }
  }

  /** Played are exactly the media frames at or after the start, and before them exactly the configuration frames:
    * each place of the recording once, in the order of the recording. */
  lemma {:induction false} FromIs(fs: seq<MediaFrame>, start: nat)
    ensures exists at: seq<nat> :: Selects(fs, PlaysFrom(start), From(fs, start), at)
    ensures exists at: seq<nat> :: Selects(fs, IsConfig, Configs(fs), at)
  {
    hide Filter, Selects;
    var media := FilterSelects(fs, PlaysFrom(start));
    assert Selects(fs, PlaysFrom(start), From(fs, start), media);
    var configs := FilterSelects(fs, IsConfig);
    assert Selects(fs, IsConfig, Configs(fs), configs);
  }

  lemma {:induction false} PlayedFrames(fs: seq<MediaFrame>, start: nat)
    ensures forall f :: f in From(fs, start) <==> f in fs && IsMedia(f) && start <= Time(f)
  {
    hide From;
    FromIs(fs, start);
  }

  /** No time saturates: adding the start back gives every frame as it was recorded. */
  lemma {:induction false} RebaseIsExact(fs: seq<MediaFrame>, requested: nat, i: nat)
    requires i < |From(fs, StartMs(fs, requested))|
    ensures var start := StartMs(fs, requested);
            var f := From(fs, start)[i];
            var g := RebasedAll(From(fs, start), start)[i];
            && g.timestamp + start == f.timestamp && g.pts + start == f.pts && g.dts + start == f.dts
            && g.data == f.data && g.trackId == f.trackId && g.keyFrame == f.keyFrame
  {
    hide StartMs;
    var start := StartMs(fs, requested);
    PlayedFrames(fs, start);
    assert From(fs, start)[i] in From(fs, start);
  }

  /** The frame the start was chosen for is played, at time zero. */
  lemma {:induction false} KeyIsPlayed(fs: seq<MediaFrame>, requested: nat)
    requires exists i :: 0 <= i < |fs| && IsKey(fs[i])
    ensures var start := StartMs(fs, requested);
            exists k :: 0 <= k < |From(fs, start)| && IsKey(From(fs, start)[k])
              && Time(RebasedAll(From(fs, start), start)[k]) == 0
  {
    hide StartMs, From, Time, Rebased, RebasedAll;
    var start := StartMs(fs, requested);
    StartIsKey(fs, requested);
    var i :| 0 <= i < |fs| && IsKey(fs[i]) && Time(fs[i]) == start;
    PlayedFrames(fs, start);
    assert fs[i] in From(fs, start);
    var k :| 0 <= k < |From(fs, start)| && From(fs, start)[k] == fs[i];
    RebasedToZero(fs[i], start);
    assert Time(RebasedAll(From(fs, start), start)[k]) == 0;
  }

  lemma {:induction false} RebasedToZero(f: MediaFrame, start: nat)
    requires Time(f) == start
    ensures Time(Rebased(f, start)) == 0
  {
  }
}
