/** The group-of-pictures cache of a media source (crates/core/src/gop_cache.rs). */
module Gop {
  import opened Frames

  /** Frames a new key frame may find in the deque before old ones are dropped. */
  const MAX_KEPT: nat := 30

  predicate IsConfigFrame(f: MediaFrame) {
    && 2 <= |f.data| && f.data[1] % 0x10 == 0
    && match f.frameType
       case Video => f.data[0] % 0x10 == 7 || (f.data[0] % 0x10 == 12 && 5 <= |f.data|)
       case Audio => f.data[0] / 0x10 == 10
       case Metadata => false
  }

  datatype Kind = Meta | VideoConfig | AudioConfig | Media

  function KindOf(f: MediaFrame): Kind {
    if f.frameType == Metadata then Meta
    else if !IsConfigFrame(f) then Media
    else if f.frameType == Video then VideoConfig else AudioConfig
  }

  predicate IsKey(f: MediaFrame) {
    f.frameType == Video && f.keyFrame
  }

  // ---- what the cache stands for, over the whole history of cached frames ----

  /** The latest frame of a kind. */
  function Latest(h: seq<MediaFrame>, k: Kind): seq<MediaFrame> {
    if h == [] then []
    else if KindOf(h[|h| - 1]) == k then [h[|h| - 1]]
    else Latest(h[..|h| - 1], k)
  }

  function MediaOf(h: seq<MediaFrame>): seq<MediaFrame> {
    if h == [] then []
    else MediaOf(h[..|h| - 1]) + if KindOf(h[|h| - 1]) == Media then [h[|h| - 1]] else []
  }

  /** The index of the last key frame, or the length if there is none. */
  function LastKey(m: seq<MediaFrame>): (k: nat)
    ensures k <= |m|
    ensures k < |m| ==> IsKey(m[k])
    ensures forall i :: 0 <= i < |m| && IsKey(m[i]) ==> i <= k < |m|
  {
    if m == [] then 0
    else if IsKey(m[|m| - 1]) then |m| - 1
    else
      var k := LastKey(m[..|m| - 1]);
      if k == |m| - 1 then |m| else k
  }

  /** The media frames from the last key frame on. */
  function GopOf(m: seq<MediaFrame>): seq<MediaFrame> {
    m[LastKey(m)..]
  }

  /** What a late subscriber is given first. */
  function Snapshot(h: seq<MediaFrame>): seq<MediaFrame> {
    Latest(h, Meta) + Latest(h, VideoConfig) + Latest(h, AudioConfig) + GopOf(MediaOf(h))
  }

  predicate Tail(a: seq<MediaFrame>, b: seq<MediaFrame>) {
    |a| <= |b| && a == b[|b| - |a|..]
  }

  lemma {:induction false} TailSteps(a: seq<MediaFrame>, b: seq<MediaFrame>)
    requires Tail(a, b)
    ensures a != [] ==> Tail(a[1..], b)
  {
  }

  lemma {:induction false} TailSelf(a: seq<MediaFrame>)
    ensures Tail(a, a)
  {
  }

  /** The deque is a tail of the media history that covers the last group and little more. */
  predicate Covers(frames: seq<MediaFrame>, m: seq<MediaFrame>) {
    && Tail(frames, m)
    && |GopOf(m)| <= |frames|
    && (LastKey(m) < |m| ==> |frames| < |GopOf(m)| + MAX_KEPT)
  }

  lemma {:induction false} LastKeyOfTail(frames: seq<MediaFrame>, m: seq<MediaFrame>)
    requires Tail(frames, m) && |GopOf(m)| <= |frames|
    ensures GopOf(frames) == GopOf(m)
  {
    var d := |m| - |frames|;
    assert forall i :: 0 <= i < |frames| ==> frames[i] == m[d + i];
    var k := LastKey(frames);
    if LastKey(m) < |m| {
      assert IsKey(frames[LastKey(m) - d]);
      assert IsKey(m[d + k]);
    }
    assert d + k == LastKey(m);
  }

  /** Pushing a frame keeps the cover; before a key frame the front may first be trimmed. */
  lemma {:induction false} PushCovers(frames: seq<MediaFrame>, m: seq<MediaFrame>, f: MediaFrame, kept: seq<MediaFrame>)
    requires Covers(frames, m)
    requires Tail(kept, frames)
    requires if IsKey(f) then |kept| < MAX_KEPT else kept == frames
    ensures Covers(kept + [f], m + [f])
  {
    assert (m + [f])[..|m|] == m;
    assert kept == m[|m| - |kept|..];
    assert (m + [f])[|m| - |kept|..] == kept + [f];
  }

  lemma {:induction false} HistorySteps(h: seq<MediaFrame>, f: MediaFrame)
    ensures MediaOf(h + [f]) == if KindOf(f) == Media then MediaOf(h) + [f] else MediaOf(h)
    ensures forall k :: Latest(h + [f], k) == if KindOf(f) == k then [f] else Latest(h, k)
  {
    assert (h + [f])[..|h|] == h;
  }

  class GopCache {
    var metadata: seq<MediaFrame>
    var videoConfig: seq<MediaFrame>
    var audioConfig: seq<MediaFrame>
    var frames: seq<MediaFrame>

    /** Every frame cached since the cache was new or last cleared. */
    ghost var history: seq<MediaFrame>

    ghost predicate Valid()
      reads this
    {
      && metadata == Latest(history, Meta)
      && videoConfig == Latest(history, VideoConfig)
      && audioConfig == Latest(history, AudioConfig)
      && Covers(frames, MediaOf(history))
    }

    constructor ()
      ensures Valid() && history == []
    {
      metadata, videoConfig, audioConfig, frames, history := [], [], [], [], [];
    }

    method Clear()
      modifies this
      ensures Valid() && history == []
    {
      metadata, videoConfig, audioConfig, frames, history := [], [], [], [], [];
    }

    method CacheFrame(f: MediaFrame)
      requires Valid()
      modifies this
      ensures Valid() && history == old(history) + [f]
      ensures KindOf(f) != Media ==> frames == old(frames)
    {
      hide Covers, Latest, MediaOf, Tail, IsConfigFrame;
      HistorySteps(history, f);
      TailSelf(frames);
      history := history + [f];
      if f.frameType == Metadata {
        metadata := [f];
        return;
      }
      if f.frameType == Video && IsConfigFrame(f) {
        videoConfig := [f];
        return;
      }
      if f.frameType == Audio && IsConfigFrame(f) {
        audioConfig := [f];
        return;
      }
      if f.frameType == Video && f.keyFrame {
        while |frames| >= MAX_KEPT
          invariant Tail(frames, old(frames))
          invariant unchanged(this`metadata) && unchanged(this`videoConfig) && unchanged(this`audioConfig)
          invariant history == old(history) + [f]
        {
          TailSteps(frames, old(frames));
          frames := frames[1..];
        }
      }
      PushCovers(old(frames), MediaOf(old(history)), f, frames);
      frames := frames + [f];
    }

    method GetConfigFrames() returns (r: seq<MediaFrame>)
      requires Valid()
      ensures r == Latest(history, VideoConfig) + Latest(history, AudioConfig)
    {
      r := videoConfig + audioConfig;
    }

    method GetLatestGopFrames() returns (r: seq<MediaFrame>)
      requires Valid()
      ensures r == Snapshot(history)
    {
      hide MediaOf, Latest;
      r := metadata + videoConfig + audioConfig;
      var start: nat := |frames|;
      var i := 0;
      while i < |frames|
        invariant i <= |frames| && start <= |frames|
        invariant start < |frames| ==> start < i && IsKey(frames[start])
        invariant forall j :: 0 <= j < i && IsKey(frames[j]) ==> j <= start < |frames|
      {
        if frames[i].frameType == Video && frames[i].keyFrame {
          start := i;
        }
        i := i + 1;
      }
      ghost var k := LastKey(frames);
      assert k < |frames| ==> IsKey(frames[k]);
      assert start == k;
      LastKeyOfTail(frames, MediaOf(history));
      r := r + frames[start..];
    }

    /** A group is not lost or cut, and old frames do not pile up behind it. */
    method GetAllFrames() returns (r: seq<MediaFrame>)
      requires Valid()
      ensures exists older: seq<MediaFrame> ::
        && r == Latest(history, Meta) + Latest(history, VideoConfig) + Latest(history, AudioConfig)
                + older + GopOf(MediaOf(history))
        && (GopOf(MediaOf(history)) != [] ==> |older| < MAX_KEPT)
    {
      r := metadata + videoConfig + audioConfig + frames;
      ghost var gop := GopOf(MediaOf(history));
      ghost var older := frames[..|frames| - |gop|];
      assert frames == older + gop;
      assert r == Latest(history, Meta) + Latest(history, VideoConfig) + Latest(history, AudioConfig) + older + gop;
    }
  }
}
