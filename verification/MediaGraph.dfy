/** Publishing to a media source while a subscriber joins
  * (crates/core/src/media_source.rs, crates/core/src/sdk.rs).
  *
  * `publish_and_cache` is two steps, because the cache lock is released before the broadcast
  * lock is taken: any number of publishers may stand between their two steps. Joining is two
  * steps as well, a subscription to the broadcast channel and a snapshot of the cache.
  */
module MediaGraph {
  import opened Bytes
  import opened Frames
  import opened Gop

  datatype Event =
    | Cache(publisher: nat, frame: MediaFrame)
    | Send(publisher: nat)
    | Subscribe
    | TakeSnapshot
    | Recv
    | Lag
    | Close

  /** Frames are named by their index in `history`, the order in which they entered the cache.
    * `log` lists the frames the channel has carried, `pos` the length of the log on subscribing
    * and `at` the length of the history at the snapshot. */
  datatype State = State(
    history: seq<MediaFrame>, holding: map<nat, nat>, log: seq<nat>, open: bool, capacity: nat,
    pos: Option<nat>, at: Option<nat>, queued: seq<MediaFrame>, cursor: nat,
    received: seq<MediaFrame>, lagged: bool)

  function Initial(capacity: nat): State {
    State([], map[], [], true, capacity, None, None, [], 0, [], false)
  }

  predicate Joined(s: State) {
    s.pos.Some? && s.at.Some?
  }

  /** One step, or nothing if the event cannot happen in this state. */
  function Next(s: State, e: Event): Option<State> {
    match e
    case Cache(p, f) =>
      if p in s.holding then None
      else Some(s.(history := s.history + [f], holding := s.holding[p := |s.history|]))
    case Send(p) =>
      if p !in s.holding then None
      else Some(s.(holding := s.holding - {p}, log := if s.open then s.log + [s.holding[p]] else s.log))
    case Subscribe =>
      if s.pos.Some? then None else Some(s.(pos := Some(|s.log|), cursor := |s.log|))
    case TakeSnapshot =>
      if s.at.Some? then None else Some(s.(at := Some(|s.history|), queued := Snapshot(s.history)))
    case Recv =>
      if !Joined(s) then None
      else if s.queued != [] then Some(s.(queued := s.queued[1..], received := s.received + [s.queued[0]]))
      else if s.cursor < |s.log| <= s.cursor + s.capacity && s.log[s.cursor] < |s.history| then
        Some(s.(cursor := s.cursor + 1, received := s.received + [s.history[s.log[s.cursor]]]))
      else None
    case Lag =>
      if !Joined(s) || s.queued != [] || |s.log| <= s.cursor + s.capacity then None
      else Some(s.(cursor := |s.log| - s.capacity, lagged := true))
    case Close => Some(s.(open := false))
  }

  function Run(s: State, events: seq<Event>): Option<State>
    decreases |events|
  {
    if events == [] then Some(s)
    else
      match Next(s, events[0])
      case None => None
      case Some(t) => Run(t, events[1..])
  }

  // ---- what every interleaving keeps ----

  predicate InRange(log: seq<nat>, h: seq<MediaFrame>) {
    forall k :: 0 <= k < |log| ==> log[k] < |h|
  }

  /** The frame with index `i` is still to be sent by some publisher. */
  ghost predicate Held(s: State, i: nat) {
    exists p :: p in s.holding && s.holding[p] == i
  }

  /** While the source is open every cached frame is held by one publisher or has been sent once. */
  ghost predicate Accounted(s: State) {
    && InRange(s.log, s.history)
    && (forall p :: p in s.holding ==> s.holding[p] < |s.history| && s.holding[p] !in s.log)
    && (forall p, q :: p in s.holding && q in s.holding && s.holding[p] == s.holding[q] ==> p == q)
    && (forall j, k :: 0 <= j < k < |s.log| ==> s.log[j] != s.log[k])
    && (s.open ==> forall i :: 0 <= i < |s.history| ==> i in s.log || Held(s, i))
  }

  /** The frames named by part of the log. */
  function Named(h: seq<MediaFrame>, log: seq<nat>): seq<MediaFrame>
    requires InRange(log, h)
  {
    seq(|log|, k requires 0 <= k < |log| => h[log[k]])
  }

  /** What the subscriber has received is its snapshot followed by the log from its position on. */
  ghost predicate InStep(s: State)
    requires Accounted(s)
  {
    && (s.pos.Some? ==> s.pos.value <= s.cursor <= |s.log|)
    && (s.at.Some? ==> s.at.value <= |s.history|)
    && (!Joined(s) ==> s.received == [] && !s.lagged && (s.pos.Some? ==> s.cursor == s.pos.value))
    && (s.at.Some? ==> !s.lagged ==>
         s.received + s.queued
         == Snapshot(s.history[..s.at.value])
            + if s.pos.Some? then Named(s.history, s.log[s.pos.value..s.cursor]) else [])
    && (Joined(s) && s.queued != [] ==> !s.lagged && s.cursor == s.pos.value)
  }

  ghost predicate Inv(s: State) {
    Accounted(s) && InStep(s)
  }

  lemma {:induction false} NextAccounted(s: State, e: Event)
    requires Accounted(s) && Next(s, e).Some?
    ensures Accounted(Next(s, e).value)
  {
    hide Snapshot, Accounted;
    match e
    case Cache(p, f) => CacheAccounted(s, p, f);
    case Send(p) => SendAccounted(s, p);
    case _ => StaysAccounted(s, Next(s, e).value);
  }

  lemma {:induction false} StaysAccounted(s: State, t: State)
    requires Accounted(s) && t.history == s.history && t.holding == s.holding && t.log == s.log && (t.open ==> s.open)
    ensures Accounted(t)
  {
    assert forall i: nat :: Held(s, i) ==> Held(t, i);
  }

  lemma {:induction false} CacheAccounted(s: State, p: nat, f: MediaFrame)
    requires Accounted(s) && p !in s.holding
    ensures Accounted(Next(s, Cache(p, f)).value)
  {
    var t := Next(s, Cache(p, f)).value;
    forall i | 0 <= i < |t.history| && t.open
      ensures i in t.log || Held(t, i)
    {
      if i == |s.history| {
        assert t.holding[p] == i;
      } else if Held(s, i) {
        var q :| q in s.holding && s.holding[q] == i;
        assert t.holding[q] == i;
      }
    }
  }

  lemma {:induction false} SendAccounted(s: State, p: nat)
    requires Accounted(s) && p in s.holding
    ensures Accounted(Next(s, Send(p)).value)
  {
    var t := Next(s, Send(p)).value;
    forall i | 0 <= i < |t.history| && t.open
      ensures i in t.log || Held(t, i)
    {
      if Held(s, i) {
        var q :| q in s.holding && s.holding[q] == i;
        assert q != p ==> q in t.holding && t.holding[q] == i;
        assert q == p ==> t.log[|s.log|] == i;
      } else {
        assert i in s.log;
      }
    }
  }

  lemma {:induction false} NamedExtend(h: seq<MediaFrame>, more: seq<MediaFrame>, log: seq<nat>, x: nat)
    requires InRange(log, h)
    ensures Named(h + more, log) == Named(h, log)
    ensures x < |h| ==> Named(h, log + [x]) == Named(h, log) + [h[x]]
  {
  }

  lemma {:induction false} NextInStep(s: State, e: Event)
    requires Inv(s) && Next(s, e).Some?
    ensures Accounted(Next(s, e).value) && InStep(Next(s, e).value)
  {
    NextAccounted(s, e);
    hide Snapshot, Accounted;
    match e
    case Cache(p, f) => CacheInStep(s, p, f);
    case Send(p) => SendInStep(s, p);
    case Recv => RecvInStep(s);
    case Subscribe => SubscribeInStep(s);
    case TakeSnapshot => SnapshotInStep(s);
    case Lag => LagInStep(s);
    case Close =>
  }

  lemma {:induction false} CacheInStep(s: State, p: nat, f: MediaFrame)
    requires Inv(s) && p !in s.holding && Accounted(Next(s, Cache(p, f)).value)
    ensures InStep(Next(s, Cache(p, f)).value)
  {
    hide Snapshot;
    if s.at.Some? {
      assert (s.history + [f])[..s.at.value] == s.history[..s.at.value];
      if s.pos.Some? {
        NamedExtend(s.history, [f], s.log[s.pos.value..s.cursor], 0);
      }
    }
  }

  lemma {:induction false} SendInStep(s: State, p: nat)
    requires Inv(s) && p in s.holding && Accounted(Next(s, Send(p)).value)
    ensures InStep(Next(s, Send(p)).value)
  {
    hide Snapshot;
    var t := Next(s, Send(p)).value;
    if s.pos.Some? {
      assert t.log[s.pos.value..s.cursor] == s.log[s.pos.value..s.cursor];
    }
  }

  lemma {:induction false} SubscribeInStep(s: State)
    requires Inv(s) && s.pos.None? && Accounted(Next(s, Subscribe).value)
    ensures InStep(Next(s, Subscribe).value)
  {
    hide Snapshot;
  }

  lemma {:induction false} SnapshotInStep(s: State)
    requires Inv(s) && s.at.None? && Accounted(Next(s, TakeSnapshot).value)
    ensures InStep(Next(s, TakeSnapshot).value)
  {
    hide Snapshot;
    assert s.history[..|s.history|] == s.history;
  }

  lemma {:induction false} LagInStep(s: State)
    requires Inv(s) && Next(s, Lag).Some? && Accounted(Next(s, Lag).value)
    ensures InStep(Next(s, Lag).value)
  {
    hide Snapshot;
  }

  lemma {:induction false} RecvInStep(s: State)
    requires Inv(s) && Next(s, Recv).Some? && Accounted(Next(s, Recv).value)
    ensures InStep(Next(s, Recv).value)
  {
    hide Snapshot;
    if s.queued != [] {
      assert s.received + s.queued == (s.received + [s.queued[0]]) + s.queued[1..];
    } else {
      var log := s.log[s.pos.value..s.cursor];
      assert s.log[s.pos.value..s.cursor + 1] == log + [s.log[s.cursor]];
      NamedExtend(s.history, [], log, s.log[s.cursor]);
      Assoc(Snapshot(s.history[..s.at.value]), Named(s.history, log), [s.history[s.log[s.cursor]]]);
      assert s.received + s.queued == s.received;
    }
  }

  lemma {:induction false} RunKeeps(s: State, events: seq<Event>)
    requires Inv(s) && Run(s, events).Some?
    ensures Inv(Run(s, events).value)
    decreases |events|
  {
    hide Inv, Next;
    if events != [] {
      KeepsInv(s, events[0]);
      RunKeeps(Next(s, events[0]).value, events[1..]);
    }
  }

  lemma {:induction false} KeepsInv(s: State, e: Event)
    requires Inv(s) && Next(s, e).Some?
    ensures Inv(Next(s, e).value)
  {
    NextInStep(s, e);
  }

  lemma {:induction false} InitialInv(capacity: nat)
    ensures Inv(Initial(capacity)) && SentIsCached(Initial(capacity))
  {
  }

  // ---- nothing is lost between the snapshot and the live frames ----

  /** Whatever had been sent when the subscriber subscribed was in the cache at its snapshot. */
  ghost predicate SentIsCached(s: State) {
    Joined(s) ==> s.pos.value <= |s.log| && forall k :: 0 <= k < s.pos.value ==> s.log[k] < s.at.value
  }

  /** The subscriber takes no snapshot before it has subscribed. */
  predicate SubscribesFirst(events: seq<Event>) {
    forall k :: 0 <= k < |events| && events[k] == TakeSnapshot ==> Subscribe in events[..k]
  }

  lemma {:induction false} SubscribesFirstStep(events: seq<Event>)
    requires events != [] && SubscribesFirst(events)
    ensures events[0] != TakeSnapshot
    ensures events[0] != Subscribe ==> SubscribesFirst(events[1..])
  {
    if events[0] != Subscribe {
      forall k | 0 <= k < |events[1..]| && events[1..][k] == TakeSnapshot
        ensures Subscribe in events[1..][..k]
      {
        assert events[k + 1] == TakeSnapshot;
        assert events[..k + 1] == [events[0]] + events[1..][..k];
      }
    }
  }

  lemma {:induction false} SubscribedFirst(s: State, events: seq<Event>)
    requires Inv(s) && SentIsCached(s) && Run(s, events).Some?
    requires s.at.Some? ==> s.pos.Some?
    requires s.pos.Some? || SubscribesFirst(events)
    ensures SentIsCached(Run(s, events).value)
    decreases |events|
  {
    hide Inv, SentIsCached, SubscribesFirst, Snapshot;
    if events != [] {
      var e := events[0];
      var t := Next(s, e).value;
      KeepsInv(s, e);
      if s.pos.None? {
        SubscribesFirstStep(events);
      }
      SentStaysCached(s, e);
      SubscribedFirst(t, events[1..]);
    }
  }

  lemma {:induction false} SentStaysCached(s: State, e: Event)
    requires Inv(s) && SentIsCached(s) && Next(s, e).Some?
    requires s.at.Some? ==> s.pos.Some?
    requires e == TakeSnapshot ==> s.pos.Some?
    ensures SentIsCached(Next(s, e).value)
    ensures Next(s, e).value.at.Some? ==> Next(s, e).value.pos.Some?
  {
    hide Snapshot;
    if e == TakeSnapshot {
      assert forall k :: 0 <= k < |s.log| ==> s.log[k] in s.log;
    }
  }

  /** Frame `i` has been or will be received live. */
  ghost predicate Live(s: State, i: nat)
    requires s.pos.Some?
  {
    exists k :: s.pos.value <= k < |s.log| && s.log[k] == i
  }

  /** Everything sent has been handed to the subscriber, which never fell behind the channel. */
  predicate CaughtUp(s: State) {
    Joined(s) && s.open && !s.lagged && s.holding == map[] && s.queued == [] && s.cursor == |s.log|
  }

  /** In any order of the two joining steps, a frame cached after the snapshot is lost exactly if it
    * was sent before the subscription. */
  lemma {:induction false} LostExactly(capacity: nat, events: seq<Event>, i: nat)
    requires Run(Initial(capacity), events).Some?
    ensures var s := Run(Initial(capacity), events).value;
            CaughtUp(s) && s.at.value <= i < |s.history| ==>
              && s.pos.value <= |s.log|
              && (Live(s, i) <==> i !in s.log[..s.pos.value])
  {
    InitialInv(capacity);
    RunKeeps(Initial(capacity), events);
    var s := Run(Initial(capacity), events).value;
    hide Run, Snapshot;
    if CaughtUp(s) && s.at.value <= i < |s.history| {
      assert !Held(s, i);
      SplitLog(s.log, s.pos.value, i);
    }
  }

  lemma {:induction false} SplitLog(log: seq<nat>, pos: nat, i: nat)
    requires pos <= |log| && i in log && forall j, k :: 0 <= j < k < |log| ==> log[j] != log[k]
    ensures i !in log[..pos] <==> exists k :: pos <= k < |log| && log[k] == i
  {
    var k :| 0 <= k < |log| && log[k] == i;
    assert k < pos ==> log[..pos][k] == i;
  }

  /** A subscriber that subscribes first misses no frame, whatever the publishers do meanwhile. */
  lemma {:induction false} NoGap(capacity: nat, events: seq<Event>)
    requires Run(Initial(capacity), events).Some?
    requires SubscribesFirst(events)
    ensures var s := Run(Initial(capacity), events).value;
            CaughtUp(s) ==>
              && s.at.value <= |s.history| && s.pos.value <= |s.log|
              && InRange(s.log[s.pos.value..], s.history)
              && s.received == Snapshot(s.history[..s.at.value]) + Named(s.history, s.log[s.pos.value..])
              && forall i: nat :: s.at.value <= i < |s.history| ==> Live(s, i)
  {
    hide Run, Snapshot, Inv, SentIsCached, SubscribesFirst, Live, Next;
    var s := Run(Initial(capacity), events).value;
    InitialInv(capacity);
    RunKeeps(Initial(capacity), events);
    SubscribedFirst(Initial(capacity), events);
    if CaughtUp(s) {
      AllReceived(s);
      forall i: nat | s.at.value <= i < |s.history|
        ensures Live(s, i)
      {
        LostExactly(capacity, events, i);
        NotSentBefore(s, i);
      }
    }
  }

  lemma {:induction false} AllReceived(s: State)
    requires Inv(s) && CaughtUp(s)
    ensures s.at.value <= |s.history| && s.pos.value <= |s.log| && InRange(s.log[s.pos.value..], s.history)
    ensures s.received == Snapshot(s.history[..s.at.value]) + Named(s.history, s.log[s.pos.value..])
  {
    hide Snapshot;
    assert s.log[s.pos.value..s.cursor] == s.log[s.pos.value..];
    assert s.received + s.queued == s.received;
  }

  lemma {:induction false} NotSentBefore(s: State, i: nat)
    requires Joined(s) && SentIsCached(s) && s.at.value <= i
    ensures i !in s.log[..s.pos.value]
  {
  }

  /** Where the group of pictures starts in the snapshot, counted in media frames of the history. */
  function GopOffset(h: seq<MediaFrame>): int {
    |Snapshot(h)| - |MediaOf(h)|
  }

  /** Place `k` of what was received belongs to frame `i` of the history: a place of the snapshot for a frame cached
    * before it was taken, and otherwise the place of the frame's own message. */
  ghost predicate ArrivesAt(s: State, i: nat, k: nat) {
    && Joined(s) && i < |s.history| && s.at.value <= |s.history| && s.pos.value <= |s.log|
    && k < |s.received| && s.received[k] == s.history[i]
    && var h := s.history[..s.at.value];
       if i < s.at.value then k < |Snapshot(h)| && k == GopOffset(h) + |MediaOf(s.history[..i])|
       else |Snapshot(h)| <= k < |Snapshot(h)| + |s.log| - s.pos.value && s.log[s.pos.value + k - |Snapshot(h)|] == i
  }

  /** So every media frame from the snapshot's key frame on arrives, at a place of its own. */
  lemma {:induction false} EveryFrameFromTheKeyArrives(capacity: nat, events: seq<Event>, i: nat)
    requires Run(Initial(capacity), events).Some?
    requires SubscribesFirst(events)
    ensures var s := Run(Initial(capacity), events).value;
            CaughtUp(s) && i < |s.history| && KindOf(s.history[i]) == Media
            && s.at.value <= |s.history|
            && LastKey(MediaOf(s.history[..s.at.value])) <= |MediaOf(s.history[..i])|
            ==> exists k: nat :: ArrivesAt(s, i, k)
  {
    hide Run, Snapshot, SubscribesFirst, MediaOf, LastKey, KindOf;
    NoGap(capacity, events);
    var s := Run(Initial(capacity), events).value;
    if CaughtUp(s) && i < |s.history| && KindOf(s.history[i]) == Media
       && LastKey(MediaOf(s.history[..s.at.value])) <= |MediaOf(s.history[..i])| {
      var h := s.history[..s.at.value];
      if i < s.at.value {
        assert h[..i] == s.history[..i];
        InSnapshot(h, i);
        assert ArrivesAt(s, i, GopOffset(h) + |MediaOf(h[..i])|);
      } else {
        assert Live(s, i);
        var k :| s.pos.value <= k < |s.log| && s.log[k] == i;
        assert Named(s.history, s.log[s.pos.value..])[k - s.pos.value] == s.history[i];
        assert ArrivesAt(s, i, |Snapshot(h)| + k - s.pos.value);
      }
    }
  }

  /** No place serves two media frames, so equal frames arrive as often as they were cached. */
  lemma {:induction false} PlacesDiffer(s: State, i: nat, j: nat, k: nat)
    requires ArrivesAt(s, i, k) && ArrivesAt(s, j, k) && KindOf(s.history[i]) == KindOf(s.history[j]) == Media
    ensures i == j
  {
    hide Snapshot, KindOf, MediaOf;
    if i < j < s.at.value {
      MediaGrows(s.history, i, j);
    } else if j < i < s.at.value {
      MediaGrows(s.history, j, i);
    }
  }

  lemma {:induction false} MediaGrows(h: seq<MediaFrame>, i: nat, j: nat)
    requires i < j <= |h| && KindOf(h[i]) == Media
    ensures |MediaOf(h[..i])| < |MediaOf(h[..j])|
  {
    assert h[..j][..i] == h[..i];
    MediaIndex(h[..j], i);
  }

  lemma {:induction false} InSnapshot(h: seq<MediaFrame>, i: nat)
    requires i < |h| && KindOf(h[i]) == Media && LastKey(MediaOf(h)) <= |MediaOf(h[..i])|
    ensures var k := GopOffset(h) + |MediaOf(h[..i])|;
            0 <= k < |Snapshot(h)| && Snapshot(h)[k] == h[i]
  {
    hide MediaOf, KindOf, Latest;
    MediaIndex(h, i);
    var m := MediaOf(h);
    assert GopOf(m)[|MediaOf(h[..i])| - LastKey(m)] == h[i];
  }

  /** A media frame stands in the media history behind those cached before it. */
  lemma {:induction false} MediaIndex(h: seq<MediaFrame>, i: nat)
    requires i < |h| && KindOf(h[i]) == Media
    ensures |MediaOf(h[..i])| < |MediaOf(h)| && MediaOf(h)[|MediaOf(h[..i])|] == h[i]
  {
    hide KindOf;
    var init := h[..|h| - 1];
    if i < |h| - 1 {
      assert init[..i] == h[..i];
      MediaIndex(init, i);
    }
  }

  // ---- one publisher ----

  predicate OnePublisher(events: seq<Event>, p: nat) {
    forall e :: e in events && e.Cache? ==> e.publisher == p
  }

  /** A single publisher sends in cache order and is at most one frame behind. */
  ghost predicate Sequential(s: State, p: nat) {
    && (forall k :: 0 <= k < |s.log| ==> s.log[k] == k)
    && s.holding.Keys <= {p}
    && (s.open ==> if p in s.holding then s.holding[p] == |s.log| && |s.history| == |s.log| + 1
                   else |s.history| == |s.log|)
  }

  lemma {:induction false} OnePublisherIsSequential(s: State, events: seq<Event>, p: nat)
    requires Sequential(s, p) && OnePublisher(events, p) && Run(s, events).Some?
    ensures Sequential(Run(s, events).value, p)
    decreases |events|
  {
    if events != [] {
      var e := events[0];
      SequentialStep(s, e, p);
      hide Sequential, Next;
      OnePublisherIsSequential(Next(s, e).value, events[1..], p);
    }
  }

  lemma {:induction false} SequentialStep(s: State, e: Event, p: nat)
    requires Sequential(s, p) && (e.Cache? ==> e.publisher == p) && Next(s, e).Some?
    ensures Sequential(Next(s, e).value, p)
  {
    hide Snapshot;
  }

  /** With one publisher the live part continues the history no later than right behind the snapshot. */
  lemma {:induction false} LiveContinuesSnapshot(capacity: nat, events: seq<Event>, p: nat)
    requires Run(Initial(capacity), events).Some? && OnePublisher(events, p)
    requires SubscribesFirst(events)
    ensures var s := Run(Initial(capacity), events).value;
            CaughtUp(s) ==>
              && s.pos.value <= s.at.value <= |s.history|
              && s.received == Snapshot(s.history[..s.at.value]) + s.history[s.pos.value..]
  {
    hide Run, Snapshot, Inv, SubscribesFirst, Live, Next;
    NoGap(capacity, events);
    OnePublisherIsSequential(Initial(capacity), events, p);
    InitialInv(capacity);
    SubscribedFirst(Initial(capacity), events);
    var s := Run(Initial(capacity), events).value;
    if CaughtUp(s) {
      assert Named(s.history, s.log[s.pos.value..]) == s.history[s.pos.value..];
      assert 0 < s.pos.value ==> s.log[s.pos.value - 1] == s.pos.value - 1;
    }
  }

  /** Taking the snapshot first, as the HTTP-FLV player does, loses a frame published in between. */
  lemma {:induction false} SnapshotFirstCanLose(f: MediaFrame)
    ensures var s := Run(Initial(16), [TakeSnapshot, Cache(0, f), Send(0), Subscribe]);
            s.Some? && CaughtUp(s.value) && s.value.history == [f] && s.value.received == []
  {
    var s0 := Initial(16);
    var s1 := Next(s0, TakeSnapshot).value;
    var s2 := Next(s1, Cache(0, f)).value;
    var s3 := Next(s2, Send(0)).value;
    var s4 := Next(s3, Subscribe).value;
    assert s3.holding == map[];
    assert Run(s4, []) == Some(s4);
    assert [Subscribe][1..] == [];
    assert Run(s3, [Subscribe]) == Some(s4);
    assert [Send(0), Subscribe][1..] == [Subscribe];
    assert Run(s2, [Send(0), Subscribe]) == Some(s4);
    assert [Cache(0, f), Send(0), Subscribe][1..] == [Send(0), Subscribe];
    assert Run(s1, [Cache(0, f), Send(0), Subscribe]) == Some(s4);
    assert [TakeSnapshot, Cache(0, f), Send(0), Subscribe][1..] == [Cache(0, f), Send(0), Subscribe];
  }
}
