/** The table of stream proxies and edge auto-pull
  * (crates/core/src/stream_proxy.rs, `get_or_pull` of crates/core/src/media_source.rs).
  *
  * Any number of callers interleave their atomic steps: a map entry is inserted or removed under
  * its own lock, a command is sent on the channel, a stop flag is stored, the per-stream mutex is
  * taken. The shared stop flag of an entry identifies it, and is modelled as a token: the index of
  * the insertion that created it.
  */
module ProxyTable {
  import opened Bytes

  /** Stream keys and addresses matter only through equality. */
  type Key = nat

  type Url = nat

  datatype Entry = Entry(url: Url, token: nat, onDemand: bool)

  datatype Cmd = Cmd(url: Url, key: Key, token: nat)

  datatype Insertion = Insertion(key: Key, url: Url, caller: nat)

  /** The table operation a caller is inside of; `last` of the caller holds what it returned. */
  datatype Op =
    | NoOp
    | Adding(key: Key, url: Url, onDemand: bool)
    | Sending(key: Key, url: Url, token: nat)
    | RollingBack(key: Key, token: nat)
    | Taking(key: Key)
    | Stopping(token: nat)

  /** Where `get_or_pull` stands; a plain `add` or `remove` has only the first stage. */
  datatype Stage =
    | Plain | Start | NeedLock | Locked | Reading | Existing | WaitExisting | Loop | Attempt | Waiting | Cleanup

  datatype Caller = Caller(
    op: Op, stage: Stage, key: Key, origins: seq<Url>, attempts: seq<Url>, last: bool, done: Option<bool>)

  /** `inserted`, `outcomes` and finished callers are history: nothing in a step depends on them
    * but the choice of a new token. */
  datatype State = State(
    active: map<Key, Entry>, stopped: set<nat>, queue: seq<Cmd>, alive: bool,
    origins: Option<seq<Url>>, sources: set<Key>, locks: map<Key, nat>, callers: map<nat, Caller>,
    inserted: seq<Insertion>, outcomes: map<nat, bool>)

  datatype Event =
    | CallAdd(c: nat, key: Key, url: Url, onDemand: bool)
    | CallRemove(c: nat, key: Key)
    | CallPull(c: nat, key: Key)
    | Step(c: nat, found: bool)
    | TaskEnds(key: Key, token: nat)
    | ReceiverDrops
    | SetOrigins(origins: seq<Url>)
    | SourceUp(key: Key)
    | SourceDown(key: Key)

  const INITIAL := State(map[], {}, [], true, None, {}, map[], map[], [], map[])

  function With(s: State, c: nat, k: Caller): State {
    s.(callers := s.callers[c := k])
  }

  /** `remove_if(key, |entry| entry.belongs_to(token))`. */
  function RemoveIf(active: map<Key, Entry>, key: Key, token: nat): map<Key, Entry> {
    if key in active && active[key].token == token then active - {key} else active
  }

  // ---- the atomic steps of the table operations ----

  /** `add` finds the key taken. */
  function Refuse(s: State, c: nat, k: Caller): State {
    With(s, c, k.(op := NoOp, last := false))
  }

  function Insert(s: State, c: nat, k: Caller): State
    requires k.op.Adding?
  {
    var token := |s.inserted|;
    With(s.(active := s.active[k.op.key := Entry(k.op.url, token, k.op.onDemand)],
            inserted := s.inserted + [Insertion(k.op.key, k.op.url, c)]),
         c, k.(op := Sending(k.op.key, k.op.url, token)))
  }

  function Enqueue(s: State, c: nat, k: Caller): State
    requires k.op.Sending?
  {
    With(s.(queue := s.queue + [Cmd(k.op.url, k.op.key, k.op.token)], outcomes := s.outcomes[k.op.token := true]),
         c, k.(op := NoOp, last := true))
  }

  function FailSend(s: State, c: nat, k: Caller): State
    requires k.op.Sending?
  {
    With(s, c, k.(op := RollingBack(k.op.key, k.op.token)))
  }

  function Rollback(s: State, c: nat, k: Caller): State
    requires k.op.RollingBack?
  {
    With(s.(active := RemoveIf(s.active, k.op.key, k.op.token), outcomes := s.outcomes[k.op.token := false]),
         c, k.(op := NoOp, last := false))
  }

  function Take(s: State, c: nat, k: Caller): State
    requires k.op.Taking? && k.op.key in s.active
  {
    With(s.(active := s.active - {k.op.key}), c, k.(op := Stopping(s.active[k.op.key].token)))
  }

  function StoreFlag(s: State, c: nat, k: Caller): State
    requires k.op.Stopping?
  {
    With(s.(stopped := s.stopped + {k.op.token}), c, k.(op := NoOp, last := true))
  }

  function OpStep(s: State, c: nat, k: Caller): State {
    match k.op
    case NoOp => s
    case Adding(key, _, _) => if key in s.active then Refuse(s, c, k) else Insert(s, c, k)
    case Sending(_, _, _) => if s.alive then Enqueue(s, c, k) else FailSend(s, c, k)
    case RollingBack(_, _) => Rollback(s, c, k)
    case Taking(key) => if key in s.active then Take(s, c, k) else Refuse(s, c, k)
    case Stopping(_) => StoreFlag(s, c, k)
  }

  // ---- between table operations ----

  datatype Move = Move(k: Caller, locks: map<Key, nat>)

  function Finish(s: State, k: Caller, found: bool): Move {
    Move(k.(done := Some(found)), s.locks - {k.key})
  }

  /** One step of a caller between table operations; `found` decides how a wait ends. */
  function StageStep(s: State, c: nat, k: Caller, found: bool): Option<Move> {
    match k.stage
    case Plain => Some(Move(k.(done := Some(k.last)), s.locks))
    case Start =>
      Some(Move(if k.key in s.sources then k.(done := Some(true)) else k.(stage := NeedLock), s.locks))
    case NeedLock =>
      if k.key in s.locks then None else Some(Move(k.(stage := Locked), s.locks[k.key := c]))
    case Locked =>
      Some(if k.key in s.sources then Finish(s, k, true) else Move(k.(stage := Reading), s.locks))
    case Reading =>
      Some(if s.origins.None? then Finish(s, k, false)
           else Move(k.(stage := Existing, origins := s.origins.value), s.locks))
    case Existing =>
      Some(Move(k.(stage := if k.key in s.active then WaitExisting else Loop), s.locks))
    case WaitExisting =>
      if !found then Some(Move(k.(stage := Loop), s.locks))
      else if k.key in s.sources then Some(Finish(s, k, true)) else None
    case Loop =>
      if |k.attempts| < |k.origins| then
        var url := k.origins[|k.attempts|];
        Some(Move(k.(op := Adding(k.key, url, true), attempts := k.attempts + [url], stage := Attempt), s.locks))
      else Some(Finish(s, k, false))
    case Attempt => Some(Move(k.(stage := if k.last then Waiting else Loop), s.locks))
    case Waiting =>
      if !found then Some(Move(k.(op := Taking(k.key), stage := Cleanup), s.locks))
      else if k.key in s.sources then Some(Finish(s, k, true)) else None
    case Cleanup => Some(Move(k.(stage := Loop), s.locks))
  }

  function Moved(s: State, c: nat, m: Option<Move>): Option<State> {
    if m.None? then None else Some(With(s.(locks := m.value.locks), c, m.value.k))
  }

  function Call(s: State, c: nat, k: Caller): Option<State> {
    if c in s.callers then None else Some(With(s, c, k))
  }

  function Next(s: State, e: Event): Option<State> {
    match e
    case CallAdd(c, key, url, onDemand) =>
      Call(s, c, Caller(Adding(key, url, onDemand), Plain, key, [], [], false, None))
    case CallRemove(c, key) => Call(s, c, Caller(Taking(key), Plain, key, [], [], false, None))
    case CallPull(c, key) => Call(s, c, Caller(NoOp, Start, key, [], [], false, None))
    case Step(c, found) =>
      if c !in s.callers || s.callers[c].done.Some? then None
      else if s.callers[c].op != NoOp then Some(OpStep(s, c, s.callers[c]))
      else Moved(s, c, StageStep(s, c, s.callers[c], found))
    case TaskEnds(key, token) => Some(s.(active := RemoveIf(s.active, key, token)))
    case ReceiverDrops => Some(s.(alive := false))
    case SetOrigins(origins) => Some(s.(origins := Some(origins)))
    case SourceUp(key) => Some(s.(sources := s.sources + {key}))
    case SourceDown(key) => Some(s.(sources := s.sources - {key}))
  }

  function Run(s: State, events: seq<Event>): Option<State>
    decreases |events|
  {
    if events == [] then Some(s)
    else
      match Next(s, events[0])
      case None => None
      case Some(t) => Run(t, events[1..])
  }

  // ---- tokens ----

  predicate Queued(s: State, t: nat) {
    exists i :: 0 <= i < |s.queue| && s.queue[i].token == t
  }

  predicate InTable(s: State, t: nat) {
    exists key :: key in s.active && s.active[key].token == t
  }

  /** The insertion's caller has not yet learnt whether its command could be sent. */
  predicate InFlight(s: State, t: nat)
    requires t < |s.inserted|
  {
    var c := s.inserted[t].caller;
    c in s.callers && match s.callers[c].op
                      case Sending(_, _, u) => u == t
                      case RollingBack(_, u) => u == t
                      case _ => false
  }

  /** An entry carries the token, key and address of its insertion, and was never told to stop. */
  ghost predicate TableOk(s: State) {
    && (forall key :: key in s.active ==>
         var e := s.active[key];
         && e.token < |s.inserted| && s.inserted[e.token].key == key && s.inserted[e.token].url == e.url
         && e.token !in s.stopped)
    && (forall t :: t in s.stopped ==> t < |s.inserted|)
  }

  /** A command carries the token, key and address of its insertion, once. */
  ghost predicate QueueOk(s: State) {
    && (forall i :: 0 <= i < |s.queue| ==>
         var q := s.queue[i];
         q.token < |s.inserted| && s.inserted[q.token].key == q.key && s.inserted[q.token].url == q.url)
    && (forall i, j :: 0 <= i < j < |s.queue| ==> s.queue[i].token != s.queue[j].token)
  }

  ghost predicate OpOk(s: State, c: nat)
    requires c in s.callers
  {
    match s.callers[c].op
    case Sending(key, url, t) => t < |s.inserted| && s.inserted[t] == Insertion(key, url, c) && t !in s.outcomes
    case RollingBack(key, t) =>
      t < |s.inserted| && s.inserted[t].key == key && s.inserted[t].caller == c && t !in s.outcomes
    case Stopping(t) => t < |s.inserted| && !InTable(s, t)
    case _ => true
  }

  /** Every insertion is either in flight or decided: kept with exactly one command, or undone with none. */
  ghost predicate OutcomesOk(s: State) {
    && (forall t: nat :: t < |s.inserted| ==> t in s.outcomes || InFlight(s, t))
    && (forall t :: t in s.outcomes ==>
         && t < |s.inserted| && (s.outcomes[t] <==> Queued(s, t)) && (!s.outcomes[t] ==> !InTable(s, t)))
    && (forall i :: 0 <= i < |s.queue| ==> s.queue[i].token in s.outcomes)
  }

  ghost predicate OpsOk(s: State) {
    forall c :: c in s.callers ==> OpOk(s, c)
  }

  ghost predicate TokensOk(s: State) {
    TableOk(s) && QueueOk(s) && OutcomesOk(s) && OpsOk(s)
  }

  /** What a step of caller `c` leaves to the others: their insertions, their outcomes and no new old entry. */
  ghost predicate LeavesOthers(s: State, c: nat, t: State) {
    && c in t.callers && t.callers.Keys == s.callers.Keys + {c}
    && (forall d :: d in s.callers && d != c ==> t.callers[d] == s.callers[d])
    && s.inserted <= t.inserted && s.outcomes.Keys <= t.outcomes.Keys
    && (forall i :: i in t.outcomes && i !in s.outcomes ==> i < |s.inserted| && s.inserted[i].caller == c)
    && (forall i: nat :: i < |s.inserted| && InTable(t, i) ==> InTable(s, i))
  }

  lemma {:induction false} OthersKeepOps(s: State, c: nat, t: State)
    requires OpsOk(s) && LeavesOthers(s, c, t) && OpOk(t, c)
    ensures OpsOk(t)
  {
    forall d | d in t.callers
      ensures OpOk(t, d)
    {
      assert d in s.callers ==> OpOk(s, d);
    }
  }

  lemma {:induction false} OthersStayInFlight(s: State, c: nat, t: State, i: nat)
    requires LeavesOthers(s, c, t) && i < |s.inserted| && InFlight(s, i) && s.inserted[i].caller != c
    ensures InFlight(t, i)
  {
  }

  /** A step that only changes the calling caller outside its table operation. */
  lemma {:induction false} OnlyStage(s: State, c: nat, k: Caller, t: State)
    requires TokensOk(s) && (k.op == NoOp || k.op.Adding? || k.op.Taking?)
    requires c in s.callers ==> !s.callers[c].op.Sending? && !s.callers[c].op.RollingBack?
    requires t.callers == s.callers[c := k]
    requires t.active == s.active && t.stopped == s.stopped && t.queue == s.queue
    requires t.inserted == s.inserted && t.outcomes == s.outcomes
    ensures TokensOk(t)
  {
    assert forall i: nat :: i < |s.inserted| && InFlight(s, i) ==> InFlight(t, i);
    forall d | d in t.callers
      ensures OpOk(t, d)
    {
      assert d in s.callers ==> OpOk(s, d);
    }
  }

  lemma {:induction false} InsertKeepsTokens(s: State, c: nat)
    requires TokensOk(s) && c in s.callers && s.callers[c].op.Adding? && s.callers[c].op.key !in s.active
    ensures TokensOk(Insert(s, c, s.callers[c]))
  {
    hide OpOk, LeavesOthers, Insert, TableOk, QueueOk, OutcomesOk, OpsOk;
    InsertLeavesOthers(s, c);
    OthersKeepOps(s, c, Insert(s, c, s.callers[c]));
    InsertTable(s, c);
    InsertOutcomes(s, c);
  }

  lemma {:induction false} InsertTable(s: State, c: nat)
    requires TableOk(s) && QueueOk(s) && c in s.callers && s.callers[c].op.Adding?
    ensures TableOk(Insert(s, c, s.callers[c])) && QueueOk(Insert(s, c, s.callers[c]))
  {
  }

  lemma {:induction false} InsertInFlight(s: State, c: nat, i: nat)
    requires OutcomesOk(s) && c in s.callers && s.callers[c].op.Adding?
    requires LeavesOthers(s, c, Insert(s, c, s.callers[c]))
    requires i <= |s.inserted| && i !in s.outcomes
    ensures InFlight(Insert(s, c, s.callers[c]), i)
  {
    var t := Insert(s, c, s.callers[c]);
    if i < |s.inserted| {
      assert InFlight(s, i) && s.inserted[i].caller != c;
      OthersStayInFlight(s, c, t, i);
    }
  }

  lemma {:induction false} InsertOutcomes(s: State, c: nat)
    requires TableOk(s) && QueueOk(s) && OutcomesOk(s) && c in s.callers && s.callers[c].op.Adding?
    requires LeavesOthers(s, c, Insert(s, c, s.callers[c]))
    ensures OutcomesOk(Insert(s, c, s.callers[c]))
  {
    var t := Insert(s, c, s.callers[c]);
    forall i: nat | i < |t.inserted| && i !in t.outcomes
      ensures InFlight(t, i)
    {
      InsertInFlight(s, c, i);
    }
    hide LeavesOthers, InFlight;
    assert forall i: nat :: Queued(t, i) <==> Queued(s, i);
    assert forall i: nat :: i < |s.inserted| && InTable(t, i) ==> InTable(s, i);
  }

  lemma {:induction false} InsertLeavesOthers(s: State, c: nat)
    requires TableOk(s) && QueueOk(s) && OutcomesOk(s)
    requires c in s.callers && s.callers[c].op.Adding? && s.callers[c].op.key !in s.active
    ensures LeavesOthers(s, c, Insert(s, c, s.callers[c])) && OpOk(Insert(s, c, s.callers[c]), c)
  {
  }

  lemma {:induction false} SendLeavesOthers(s: State, c: nat)
    requires c in s.callers && s.callers[c].op.Sending? && OpOk(s, c)
    ensures LeavesOthers(s, c, Enqueue(s, c, s.callers[c])) && OpOk(Enqueue(s, c, s.callers[c]), c)
  {
  }

  lemma {:induction false} SendKeepsTokens(s: State, c: nat)
    requires TokensOk(s) && c in s.callers && s.callers[c].op.Sending?
    ensures TokensOk(Enqueue(s, c, s.callers[c]))
  {
    hide OpOk, LeavesOthers, Enqueue, TableOk, QueueOk, OutcomesOk;
    var t := Enqueue(s, c, s.callers[c]);
    assert OpOk(s, c);
    SendLeavesOthers(s, c);
    OthersKeepOps(s, c, t);
    SendTable(s, c);
    SendOutcomes(s, c);
  }

  lemma {:induction false} SendTable(s: State, c: nat)
    requires TableOk(s) && QueueOk(s) && OutcomesOk(s) && c in s.callers && s.callers[c].op.Sending? && OpOk(s, c)
    ensures TableOk(Enqueue(s, c, s.callers[c])) && QueueOk(Enqueue(s, c, s.callers[c]))
  {
    hide InFlight;
  }

  lemma {:induction false} SendOutcomes(s: State, c: nat)
    requires OutcomesOk(s) && c in s.callers && s.callers[c].op.Sending? && OpOk(s, c)
    requires LeavesOthers(s, c, Enqueue(s, c, s.callers[c]))
    ensures OutcomesOk(Enqueue(s, c, s.callers[c]))
  {
    var t := Enqueue(s, c, s.callers[c]);
    forall i: nat | i < |s.inserted| && i !in t.outcomes
      ensures InFlight(t, i)
    {
      OthersStayInFlight(s, c, t, i);
    }
    hide LeavesOthers, InFlight;
    QueueGrows(s, c);
    assert forall i: nat :: InTable(t, i) <==> InTable(s, i);
  }

  lemma {:induction false} QueueGrows(s: State, c: nat)
    requires c in s.callers && s.callers[c].op.Sending?
    ensures forall i: nat :: Queued(Enqueue(s, c, s.callers[c]), i) <==> i == s.callers[c].op.token || Queued(s, i)
  {
    var t := Enqueue(s, c, s.callers[c]);
    assert t.queue[|s.queue|].token == s.callers[c].op.token;
    assert forall k :: 0 <= k < |s.queue| ==> t.queue[k] == s.queue[k];
  }

  /** A step after which nothing is newly decided or inserted, and the table has at most lost entries. */
  ghost predicate Quiet(s: State, c: nat, t: State) {
    && c in t.callers && t.callers == s.callers[c := t.callers[c]]
    && t.queue == s.queue && t.inserted == s.inserted && t.outcomes == s.outcomes
    && t.active.Keys <= s.active.Keys && (forall key :: key in t.active ==> t.active[key] == s.active[key])
    && s.stopped <= t.stopped
    && (forall i :: i in t.stopped && i !in s.stopped ==> i < |s.inserted| && !InTable(s, i))
    && (forall i: nat :: i < |s.inserted| && InFlight(s, i) && s.inserted[i].caller == c ==> InFlight(t, i))
  }

  lemma {:induction false} QuietKeepsTokens(s: State, c: nat, t: State)
    requires TokensOk(s) && Quiet(s, c, t) && OpOk(t, c)
    ensures TokensOk(t)
  {
    hide OpOk, OpsOk, LeavesOthers, Quiet, TableOk, QueueOk, OutcomesOk;
    QuietLeavesOthers(s, c, t);
    OthersKeepOps(s, c, t);
    QuietTable(s, c, t);
    QuietOutcomes(s, c, t);
  }

  lemma {:induction false} QuietTable(s: State, c: nat, t: State)
    requires TableOk(s) && QueueOk(s) && Quiet(s, c, t)
    ensures TableOk(t) && QueueOk(t)
  {
    assert forall key :: key in s.active ==> InTable(s, s.active[key].token);
  }

  lemma {:induction false} QuietOutcomes(s: State, c: nat, t: State)
    requires OutcomesOk(s) && Quiet(s, c, t) && LeavesOthers(s, c, t)
    ensures OutcomesOk(t)
  {
    forall i: nat | i < |s.inserted| && InFlight(s, i)
      ensures InFlight(t, i)
    {
      if s.inserted[i].caller != c {
        OthersStayInFlight(s, c, t, i);
      }
    }
    hide LeavesOthers, InFlight;
    assert forall i: nat :: Queued(t, i) <==> Queued(s, i);
    assert forall i: nat :: InTable(t, i) ==> InTable(s, i);
  }

  lemma {:induction false} QuietLeavesOthers(s: State, c: nat, t: State)
    requires Quiet(s, c, t)
    ensures LeavesOthers(s, c, t)
  {
  }

  lemma {:induction false} FailSendIsQuiet(s: State, c: nat)
    requires c in s.callers && s.callers[c].op.Sending? && OpOk(s, c)
    ensures Quiet(s, c, FailSend(s, c, s.callers[c])) && OpOk(FailSend(s, c, s.callers[c]), c)
  {
  }

  lemma {:induction false} TakeIsQuiet(s: State, c: nat)
    requires TableOk(s) && c in s.callers && s.callers[c].op.Taking? && s.callers[c].op.key in s.active
    ensures Quiet(s, c, Take(s, c, s.callers[c])) && OpOk(Take(s, c, s.callers[c]), c)
  {
  }

  lemma {:induction false} StoreFlagIsQuiet(s: State, c: nat)
    requires c in s.callers && s.callers[c].op.Stopping? && OpOk(s, c)
    ensures Quiet(s, c, StoreFlag(s, c, s.callers[c])) && OpOk(StoreFlag(s, c, s.callers[c]), c)
  {
  }

  lemma {:induction false} RollbackLeavesOthers(s: State, c: nat)
    requires c in s.callers && s.callers[c].op.RollingBack? && OpOk(s, c)
    ensures LeavesOthers(s, c, Rollback(s, c, s.callers[c])) && OpOk(Rollback(s, c, s.callers[c]), c)
  {
  }

  lemma {:induction false} RollbackKeepsTokens(s: State, c: nat)
    requires TokensOk(s) && c in s.callers && s.callers[c].op.RollingBack?
    ensures TokensOk(Rollback(s, c, s.callers[c]))
  {
    hide OpOk, LeavesOthers, Rollback, TableOk, QueueOk, OutcomesOk;
    var t := Rollback(s, c, s.callers[c]);
    assert OpOk(s, c);
    RollbackLeavesOthers(s, c);
    OthersKeepOps(s, c, t);
    RollbackTable(s, c);
    RollbackOutcomes(s, c);
  }

  lemma {:induction false} RollbackTable(s: State, c: nat)
    requires TableOk(s) && QueueOk(s) && c in s.callers && s.callers[c].op.RollingBack?
    ensures TableOk(Rollback(s, c, s.callers[c])) && QueueOk(Rollback(s, c, s.callers[c]))
  {
  }

  lemma {:induction false} RollbackInFlight(s: State, c: nat, i: nat)
    requires OutcomesOk(s) && c in s.callers && s.callers[c].op.RollingBack? && OpOk(s, c)
    requires LeavesOthers(s, c, Rollback(s, c, s.callers[c]))
    requires i < |s.inserted| && i !in Rollback(s, c, s.callers[c]).outcomes
    ensures InFlight(Rollback(s, c, s.callers[c]), i)
  {
    assert InFlight(s, i) && s.inserted[i].caller != c;
    OthersStayInFlight(s, c, Rollback(s, c, s.callers[c]), i);
  }

  lemma {:induction false} RollbackLoses(s: State, c: nat)
    requires TableOk(s) && c in s.callers && s.callers[c].op.RollingBack? && OpOk(s, c)
    ensures var t := Rollback(s, c, s.callers[c]);
            && (forall i: nat :: InTable(t, i) ==> InTable(s, i))
            && (forall i: nat :: Queued(t, i) <==> Queued(s, i))
            && !InTable(t, s.callers[c].op.token)
  {
  }

  lemma {:induction false} RollbackOutcomes(s: State, c: nat)
    requires TableOk(s) && OutcomesOk(s) && c in s.callers && s.callers[c].op.RollingBack? && OpOk(s, c)
    requires LeavesOthers(s, c, Rollback(s, c, s.callers[c]))
    ensures OutcomesOk(Rollback(s, c, s.callers[c]))
  {
    var t := Rollback(s, c, s.callers[c]);
    forall i: nat | i < |s.inserted| && i !in t.outcomes
      ensures InFlight(t, i)
    {
      RollbackInFlight(s, c, i);
    }
    RollbackLoses(s, c);
    RollbackDecides(s, c);
    hide LeavesOthers, InFlight, InTable, Queued, TableOk;
  }

  /** The undone insertion has no command. */
  lemma {:induction false} RollbackDecides(s: State, c: nat)
    requires OutcomesOk(s) && c in s.callers && s.callers[c].op.RollingBack? && OpOk(s, c)
    ensures s.callers[c].op.token < |s.inserted| && !Queued(s, s.callers[c].op.token)
  {
    hide InFlight, InTable;
  }

  lemma {:induction false} TaskEndKeepsTokens(s: State, key: Key, token: nat)
    requires TokensOk(s)
    ensures TokensOk(s.(active := RemoveIf(s.active, key, token)))
  {
    var t := s.(active := RemoveIf(s.active, key, token));
    assert forall i: nat :: InTable(t, i) ==> InTable(s, i);
    assert forall i: nat :: i < |s.inserted| && InFlight(s, i) ==> InFlight(t, i);
    assert forall i: nat :: Queued(t, i) <==> Queued(s, i);
    forall d | d in t.callers
      ensures OpOk(t, d)
    {
      assert d in s.callers && OpOk(s, d);
    }
  }

  lemma {:induction false} OpKeepsTokens(s: State, c: nat)
    requires TokensOk(s) && c in s.callers && s.callers[c].op != NoOp
    ensures TokensOk(OpStep(s, c, s.callers[c]))
  {
    hide Insert, Enqueue, FailSend, Rollback, Take, StoreFlag, OpOk, TableOk, QueueOk, OutcomesOk, Quiet;
    var k := s.callers[c];
    assert OpOk(s, c);
    match k.op
    case Adding(key, _, _) =>
      if key in s.active {
        OnlyStage(s, c, k.(op := NoOp, last := false), Refuse(s, c, k));
      } else {
        InsertKeepsTokens(s, c);
      }
    case Sending(_, _, _) =>
      if s.alive {
        SendKeepsTokens(s, c);
      } else {
        FailSendIsQuiet(s, c);
        QuietKeepsTokens(s, c, FailSend(s, c, k));
      }
    case RollingBack(_, _) => RollbackKeepsTokens(s, c);
    case Taking(key) =>
      if key in s.active {
        TakeIsQuiet(s, c);
        QuietKeepsTokens(s, c, Take(s, c, k));
      } else {
        OnlyStage(s, c, k.(op := NoOp, last := false), Refuse(s, c, k));
      }
    case Stopping(_) =>
      StoreFlagIsQuiet(s, c);
      QuietKeepsTokens(s, c, StoreFlag(s, c, k));
  }

  lemma {:induction false} NextKeepsTokens(s: State, e: Event)
    requires TokensOk(s) && Next(s, e).Some?
    ensures TokensOk(Next(s, e).value)
  {
    hide TokensOk, OpStep, RemoveIf, StageStep;
    var t := Next(s, e).value;
    match e
    case CallAdd(c, key, url, onDemand) => OnlyStage(s, c, t.callers[c], t);
    case CallRemove(c, key) => OnlyStage(s, c, t.callers[c], t);
    case CallPull(c, key) => OnlyStage(s, c, t.callers[c], t);
    case Step(c, found) =>
      if s.callers[c].op != NoOp {
        OpKeepsTokens(s, c);
      } else {
        StageStepShape(s, c, s.callers[c], found);
        OnlyStage(s, c, t.callers[c], t);
      }
    case TaskEnds(key, token) => TaskEndKeepsTokens(s, key, token);
    case ReceiverDrops => Unrelated(s, t);
    case SetOrigins(_) => Unrelated(s, t);
    case SourceUp(_) => Unrelated(s, t);
    case SourceDown(_) => Unrelated(s, t);
  }

  lemma {:induction false} StageStepShape(s: State, c: nat, k: Caller, found: bool)
    requires k.op == NoOp && StageStep(s, c, k, found).Some?
    ensures var op := StageStep(s, c, k, found).value.k.op;
            op == NoOp || op.Adding? || op.Taking?
  {
  }

  lemma {:induction false} Unrelated(s: State, t: State)
    requires TokensOk(s)
    requires t.active == s.active && t.stopped == s.stopped && t.queue == s.queue && t.callers == s.callers
    requires t.inserted == s.inserted && t.outcomes == s.outcomes
    ensures TokensOk(t)
  {
    assert forall i: nat :: i < |s.inserted| && InFlight(s, i) ==> InFlight(t, i);
    assert forall i: nat :: InTable(t, i) <==> InTable(s, i);
    forall d | d in t.callers
      ensures OpOk(t, d)
    {
      assert OpOk(s, d);
    }
  }

  // ---- edge auto-pull ----

  /** The caller is behind the per-stream lock, possibly in the loop over the origins. */
  predicate Holding(k: Caller) {
    k.stage !in {Plain, Start, NeedLock} && k.done.None?
  }

  /** The caller may have an entry of its own in the table. */
  predicate MayOwn(k: Caller) {
    || k.done == Some(true)
    || (k.stage == Attempt && (k.op.Sending? || k.op.RollingBack? || (k.op == NoOp && k.last)))
    || k.stage == Waiting
    || (k.stage == Cleanup && k.op.Taking?)
  }

  ghost predicate Owns(s: State, c: nat, key: Key)
    requires TableOk(s)
  {
    key in s.active && s.inserted[s.active[key].token].caller == c
  }

  /** Origins are tried in list order, each table operation belongs to its stage and is about the stream. */
  predicate CallerOk(k: Caller) {
    && |k.attempts| <= |k.origins| && k.attempts == k.origins[..|k.attempts|]
    && (k.stage in {Start, NeedLock, Locked, Reading} ==> k.origins == [])
    && (k.done == Some(false) ==> k.attempts == k.origins && k.stage in {Reading, Loop})
    && (k.op != NoOp ==> k.done.None?)
    && match k.op
       case NoOp => true
       case Adding(key, url, _) =>
         k.stage == Attempt && key == k.key && k.attempts != [] && url == k.attempts[|k.attempts| - 1]
       case Sending(key, _, _) => k.stage == Attempt && key == k.key
       case RollingBack(key, _) => k.stage == Attempt && key == k.key
       case Taking(key) => k.stage == Cleanup && key == k.key
       case Stopping(_) => k.stage == Cleanup
  }

  ghost predicate PullOk(s: State, c: nat)
    requires TableOk(s) && c in s.callers
  {
    var k := s.callers[c];
    k.stage != Plain ==>
      && CallerOk(k)
      && (Holding(k) ==> k.key in s.locks && s.locks[k.key] == c)
      && (forall i :: 0 <= i < |s.inserted| && s.inserted[i].caller == c ==> s.inserted[i].key == k.key)
      && (!MayOwn(k) ==> !Owns(s, c, k.key))
      && (k.op.Sending? || k.op.RollingBack? ==> Owns(s, c, k.key) ==> s.active[k.key].token == k.op.token)
  }

  /** What a step of caller `c` leaves to the pulls of the others. */
  ghost predicate PullFrame(s: State, c: nat, t: State) {
    && (forall d :: d in t.callers && d != c ==> d in s.callers && t.callers[d] == s.callers[d])
    && s.callers.Keys + {c} <= t.callers.Keys
    && s.inserted <= t.inserted
    && (forall i :: |s.inserted| <= i < |t.inserted| ==> t.inserted[i].caller == c)
    && (forall key :: key in t.active ==>
         || (key in s.active && t.active[key] == s.active[key])
         || |s.inserted| <= t.active[key].token)
    && (forall key :: key in s.locks && s.locks[key] != c ==> key in t.locks && t.locks[key] == s.locks[key])
  }

  lemma {:induction false} OthersKeepPull(s: State, c: nat, t: State, d: nat)
    requires TableOk(s) && TableOk(t) && PullFrame(s, c, t)
    requires d in t.callers && d != c && d in s.callers && PullOk(s, d)
    ensures PullOk(t, d)
  {
    assert Owns(t, d, t.callers[d].key) ==> Owns(s, d, s.callers[d].key);
  }

  ghost predicate CallersKnown(s: State) {
    forall i :: 0 <= i < |s.inserted| ==> s.inserted[i].caller in s.callers
  }

  ghost predicate PullsOk(s: State) {
    && TableOk(s) && CallersKnown(s)
    && forall c :: c in s.callers ==> PullOk(s, c)
  }

  lemma {:induction false} StepKeepsPulls(s: State, c: nat, t: State)
    requires PullsOk(s) && TableOk(t) && PullFrame(s, c, t) && c in t.callers && PullOk(t, c)
    ensures PullsOk(t)
  {
    assert CallersKnown(t);
    hide PullOk, TableOk, CallersKnown;
    forall d | d in t.callers
      ensures PullOk(t, d)
    {
      if d != c {
        PullFrameCallers(s, c, t, d);
        OthersKeepPull(s, c, t, d);
      }
    }
  }

  lemma {:induction false} PullFrameCallers(s: State, c: nat, t: State, d: nat)
    requires PullFrame(s, c, t) && d in t.callers && d != c
    ensures d in s.callers
  {
  }

  lemma {:induction false} InsertPull(s: State, c: nat)
    requires TokensOk(s) && c in s.callers && s.callers[c].op.Adding? && s.callers[c].op.key !in s.active
    requires PullOk(s, c) && TableOk(Insert(s, c, s.callers[c]))
    ensures PullOk(Insert(s, c, s.callers[c]), c) && PullFrame(s, c, Insert(s, c, s.callers[c]))
  {
    hide TokensOk;
  }

  lemma {:induction false} EnqueuePull(s: State, c: nat)
    requires TableOk(s) && c in s.callers && s.callers[c].op.Sending? && PullOk(s, c)
    ensures TableOk(Enqueue(s, c, s.callers[c]))
    ensures PullOk(Enqueue(s, c, s.callers[c]), c) && PullFrame(s, c, Enqueue(s, c, s.callers[c]))
  {
  }

  lemma {:induction false} FailSendPull(s: State, c: nat)
    requires TableOk(s) && c in s.callers && s.callers[c].op.Sending? && PullOk(s, c)
    ensures TableOk(FailSend(s, c, s.callers[c]))
    ensures PullOk(FailSend(s, c, s.callers[c]), c) && PullFrame(s, c, FailSend(s, c, s.callers[c]))
  {
  }

  lemma {:induction false} RollbackPull(s: State, c: nat)
    requires TableOk(s) && c in s.callers && s.callers[c].op.RollingBack? && PullOk(s, c)
    ensures TableOk(Rollback(s, c, s.callers[c]))
    ensures PullOk(Rollback(s, c, s.callers[c]), c) && PullFrame(s, c, Rollback(s, c, s.callers[c]))
  {
  }

  lemma {:induction false} TakePull(s: State, c: nat)
    requires TableOk(s) && c in s.callers && s.callers[c].op.Taking? && s.callers[c].op.key in s.active && PullOk(s, c)
    ensures TableOk(Take(s, c, s.callers[c]))
    ensures PullOk(Take(s, c, s.callers[c]), c) && PullFrame(s, c, Take(s, c, s.callers[c]))
  {
  }

  lemma {:induction false} StoreFlagPull(s: State, c: nat)
    requires TableOk(s) && c in s.callers && s.callers[c].op.Stopping? && PullOk(s, c)
    requires TableOk(StoreFlag(s, c, s.callers[c]))
    ensures PullOk(StoreFlag(s, c, s.callers[c]), c) && PullFrame(s, c, StoreFlag(s, c, s.callers[c]))
  {
  }

  lemma {:induction false} RefusePull(s: State, c: nat)
    requires TableOk(s) && c in s.callers && PullOk(s, c)
    requires var op := s.callers[c].op; op.Adding? || (op.Taking? && op.key !in s.active)
    ensures TableOk(Refuse(s, c, s.callers[c]))
    ensures PullOk(Refuse(s, c, s.callers[c]), c) && PullFrame(s, c, Refuse(s, c, s.callers[c]))
  {
  }

  /** After a step of caller `c` its own pull is in order and those of the others are left alone. */
  ghost predicate PullStep(s: State, c: nat, t: State) {
    c in t.callers && TableOk(t) && PullOk(t, c) && PullFrame(s, c, t)
  }

  lemma {:induction false} OpPull(s: State, c: nat)
    requires TokensOk(s) && c in s.callers && s.callers[c].op != NoOp && PullOk(s, c)
    ensures PullStep(s, c, OpStep(s, c, s.callers[c]))
  {
    hide Insert, Enqueue, FailSend, Rollback, Take, StoreFlag, Refuse, PullOk, PullFrame, TableOk, QueueOk, OutcomesOk;
    hide OpsOk;
    OpStepCaller(s, c, s.callers[c]);
    OpKeepsTokens(s, c);
    match s.callers[c].op
    case Adding(key, _, _) =>
      if key in s.active {
        RefusePull(s, c);
      } else {
        InsertPull(s, c);
      }
    case Sending(_, _, _) =>
      if s.alive {
        EnqueuePull(s, c);
      } else {
        FailSendPull(s, c);
      }
    case RollingBack(_, _) => RollbackPull(s, c);
    case Taking(key) =>
      if key in s.active {
        TakePull(s, c);
      } else {
        RefusePull(s, c);
      }
    case Stopping(_) => StoreFlagPull(s, c);
  }

  lemma {:induction false} OpStepCaller(s: State, c: nat, k: Caller)
    requires k.op != NoOp
    ensures c in OpStep(s, c, k).callers
  {
  }

  lemma {:induction false} AttemptsGrow(k: Caller)
    requires |k.attempts| < |k.origins| && k.attempts == k.origins[..|k.attempts|]
    ensures k.attempts + [k.origins[|k.attempts|]] == k.origins[..|k.attempts| + 1]
  {
  }

  /** A move keeps the caller in order; it takes the lock before the loop and drops it only when done. */
  lemma {:induction false} MoveShape(s: State, c: nat, k: Caller, found: bool)
    requires CallerOk(k) && k.op == NoOp && k.done.None? && StageStep(s, c, k, found).Some?
    requires k.stage != Plain && (Holding(k) ==> k.key in s.locks && s.locks[k.key] == c)
    ensures var m := StageStep(s, c, k, found).value;
            && CallerOk(m.k) && m.k.key == k.key && m.k.stage != Plain
            && (Holding(m.k) ==> k.key in m.locks && m.locks[k.key] == c)
            && (MayOwn(k) ==> MayOwn(m.k)) && !m.k.op.Sending? && !m.k.op.RollingBack?
  {
    if k.stage == Loop && |k.attempts| < |k.origins| {
      AttemptsGrow(k);
    }
  }

  lemma {:induction false} MoveOwn(s: State, c: nat, found: bool)
    requires TableOk(s) && c in s.callers && s.callers[c].op == NoOp && s.callers[c].done.None? && PullOk(s, c)
    requires StageStep(s, c, s.callers[c], found).Some?
    ensures var m := StageStep(s, c, s.callers[c], found).value;
            var t := With(s.(locks := m.locks), c, m.k);
            TableOk(t) && PullOk(t, c)
  {
    var k := s.callers[c];
    if k.stage != Plain {
      MoveShape(s, c, k, found);
      hide StageStep, CallerOk, MayOwn, Holding;
      var m := StageStep(s, c, k, found).value;
      var t := With(s.(locks := m.locks), c, m.k);
      assert Owns(t, c, k.key) <==> Owns(s, c, k.key);
    }
  }

  /** A move changes no more than the caller and its own lock. */
  lemma {:induction false} MoveFrame(s: State, c: nat, found: bool)
    requires TableOk(s) && c in s.callers && s.callers[c].op == NoOp && s.callers[c].done.None? && PullOk(s, c)
    requires StageStep(s, c, s.callers[c], found).Some?
    ensures var m := StageStep(s, c, s.callers[c], found).value;
            PullFrame(s, c, With(s.(locks := m.locks), c, m.k))
  {
    MoveLocks(s, c, s.callers[c], found);
    hide StageStep, TableOk, CallerOk, MayOwn, Holding;
  }

  lemma {:induction false} MoveLocks(s: State, c: nat, k: Caller, found: bool)
    requires StageStep(s, c, k, found).Some? && k.done.None?
    ensures var locks := StageStep(s, c, k, found).value.locks;
            || locks == s.locks || (locks == s.locks - {k.key} && Holding(k) && k.stage != Plain)
            || (locks == s.locks[k.key := c] && k.key !in s.locks)
  {
  }

  lemma {:induction false} NextKeepsPulls(s: State, e: Event)
    requires TokensOk(s) && PullsOk(s) && Next(s, e).Some?
    ensures PullsOk(Next(s, e).value)
  {
    NextKeepsTokens(s, e);
    hide TokensOk, OpStep, StageStep, RemoveIf;
    var t := Next(s, e).value;
    match e
    case CallAdd(c, _, _, _) => NewCaller(s, c, t);
    case CallRemove(c, _) => NewCaller(s, c, t);
    case CallPull(c, _) => NewCaller(s, c, t);
    case Step(c, found) => CallerKeepsPulls(s, c, found);
    case TaskEnds(key, token) => TaskEndKeepsPulls(s, key, token);
    case ReceiverDrops => SamePulls(s, t);
    case SetOrigins(_) => SamePulls(s, t);
    case SourceUp(_) => SamePulls(s, t);
    case SourceDown(_) => SamePulls(s, t);
  }

  lemma {:induction false} CallerKeepsPulls(s: State, c: nat, found: bool)
    requires TokensOk(s) && PullsOk(s) && Next(s, Step(c, found)).Some?
    ensures PullsOk(Next(s, Step(c, found)).value)
  {
    hide TokensOk, OpStep, StageStep, PullOk, PullFrame, TableOk;
    var t := Next(s, Step(c, found)).value;
    assert PullOk(s, c);
    if s.callers[c].op != NoOp {
      OpPull(s, c);
    } else {
      MoveOwn(s, c, found);
      MoveFrame(s, c, found);
    }
    StepKeepsPulls(s, c, t);
  }

  lemma {:induction false} NewCaller(s: State, c: nat, t: State)
    requires TokensOk(s) && PullsOk(s) && c !in s.callers && c in t.callers && t == With(s, c, t.callers[c])
    requires var k := t.callers[c];
             k.stage == Plain || (k.stage == Start && k.op == NoOp && k.origins == k.attempts == [] && k.done.None?)
    ensures PullsOk(t)
  {
    hide TokensOk;
    StepKeepsPulls(s, c, t);
  }

  lemma {:induction false} TaskEndKeepsPulls(s: State, key: Key, token: nat)
    requires PullsOk(s)
    ensures PullsOk(s.(active := RemoveIf(s.active, key, token)))
  {
    var t := s.(active := RemoveIf(s.active, key, token));
    forall d | d in t.callers
      ensures PullOk(t, d)
    {
      assert PullOk(s, d);
      assert Owns(t, d, t.callers[d].key) ==> Owns(s, d, s.callers[d].key);
    }
  }

  lemma {:induction false} SamePulls(s: State, t: State)
    requires PullsOk(s)
    requires t.active == s.active && t.stopped == s.stopped && t.callers == s.callers && t.inserted == s.inserted
    requires t.locks == s.locks
    ensures PullsOk(t)
  {
    forall d | d in t.callers
      ensures PullOk(t, d)
    {
      assert PullOk(s, d);
      assert Owns(t, d, t.callers[d].key) <==> Owns(s, d, s.callers[d].key);
    }
  }

  // ---- every run ----

  ghost predicate Inv(s: State) {
    TokensOk(s) && PullsOk(s)
  }

  lemma {:induction false} RunKeeps(s: State, events: seq<Event>)
    requires Inv(s) && Run(s, events).Some?
    ensures Inv(Run(s, events).value)
    decreases |events|
  {
    hide TokensOk, PullsOk, Next;
    if events != [] {
      NextKeepsTokens(s, events[0]);
      NextKeepsPulls(s, events[0]);
      RunKeeps(Next(s, events[0]).value, events[1..]);
    }
  }

  lemma {:induction false} InitialOk()
    ensures Inv(INITIAL)
  {
  }

  lemma {:induction false} Reachable(events: seq<Event>)
    requires Run(INITIAL, events).Some?
    ensures Inv(Run(INITIAL, events).value)
  {
    hide Run;
    InitialOk();
    RunKeeps(INITIAL, events);
  }

  /** Every decided insertion is all or nothing: kept with exactly one command that carries its entry's
    * token, key and address, or undone with no command and no entry. */
  lemma {:induction false} DecidedIsAtomic(events: seq<Event>, token: nat)
    requires Run(INITIAL, events).Some?
    requires token in Run(INITIAL, events).value.outcomes
    ensures var s := Run(INITIAL, events).value;
            && token < |s.inserted|
            && (s.outcomes[token] ==>
                 exists i :: 0 <= i < |s.queue|
                   && s.queue[i] == Cmd(s.inserted[token].url, s.inserted[token].key, token)
                   && forall j :: 0 <= j < |s.queue| && s.queue[j].token == token ==> j == i)
            && (!s.outcomes[token] ==> !Queued(s, token) && !InTable(s, token))
  {
    hide Run;
    Reachable(events);
    var s := Run(INITIAL, events).value;
    if s.outcomes[token] {
      var i :| 0 <= i < |s.queue| && s.queue[i].token == token;
      assert forall j :: 0 <= j < |s.queue| && s.queue[j].token == token ==> j == i;
    }
  }

  /** Once no `add` is in flight, the table holds exactly entries with a command, none of them stopped. */
  lemma {:induction false} EntriesAreCommanded(events: seq<Event>, key: Key)
    requires Run(INITIAL, events).Some?
    requires key in Run(INITIAL, events).value.active
    ensures var s := Run(INITIAL, events).value;
            var e := s.active[key];
            && e.token !in s.stopped && e.token < |s.inserted|
            && s.inserted[e.token].key == key && s.inserted[e.token].url == e.url
            && (Queued(s, e.token) || InFlight(s, e.token))
  {
    hide Run;
    Reachable(events);
    var s := Run(INITIAL, events).value;
    assert InTable(s, s.active[key].token);
  }

  /** At most one caller per stream is behind the lock, so the origin loop is single-flight. */
  lemma {:induction false} SingleFlight(events: seq<Event>, c: nat, d: nat)
    requires Run(INITIAL, events).Some?
    requires var s := Run(INITIAL, events).value; c in s.callers && d in s.callers
    ensures var s := Run(INITIAL, events).value;
            Holding(s.callers[c]) && Holding(s.callers[d]) && s.callers[c].key == s.callers[d].key ==> c == d
  {
    hide Run, TokensOk, CallerOk, MayOwn;
    Reachable(events);
    var s := Run(INITIAL, events).value;
    assert PullOk(s, c) && PullOk(s, d);
  }

  /** A pull tries its origins in list order, and one that ends without a source has tried
    * them all and leaves nothing of its own in the table. */
  lemma {:induction false} PullTriesInOrder(events: seq<Event>, c: nat)
    requires Run(INITIAL, events).Some?
    requires var s := Run(INITIAL, events).value; c in s.callers && s.callers[c].stage != Plain
    ensures var s := Run(INITIAL, events).value;
            var k := s.callers[c];
            && |k.attempts| <= |k.origins| && k.attempts == k.origins[..|k.attempts|]
            && (k.done == Some(false) ==>
                 && k.attempts == k.origins
                 && forall key :: key in s.active ==>
                      s.active[key].token < |s.inserted| && s.inserted[s.active[key].token].caller != c)
  {
    hide Run, TokensOk;
    Reachable(events);
    var s := Run(INITIAL, events).value;
    var k := s.callers[c];
    assert PullOk(s, c);
    forall key | key in s.active && k.done == Some(false)
      ensures s.inserted[s.active[key].token].caller != c
    {
      assert !Owns(s, c, k.key);
    }
  }

  // ---- the clean-up of a pull is not tied to its own entry ----

  ghost predicate Reached(s: State) {
    exists events :: Run(INITIAL, events) == Some(s)
  }

  lemma {:induction false} RunSnoc(s: State, events: seq<Event>, e: Event)
    requires Run(s, events).Some?
    ensures Run(s, events + [e]) == Next(Run(s, events).value, e)
    decreases |events|
  {
    hide Next;
    if events == [] {
      assert [e][1..] == [];
      assert events + [e] == [e];
    } else {
      assert (events + [e])[1..] == events[1..] + [e];
      RunSnoc(Next(s, events[0]).value, events[1..], e);
    }
  }

  lemma {:induction false} ReachNext(s: State, e: Event)
    requires Reached(s) && Next(s, e).Some?
    ensures Reached(Next(s, e).value)
  {
    hide Run, Next;
    var events :| Run(INITIAL, events) == Some(s);
    RunSnoc(INITIAL, events, e);
  }

  const K: Key := 1

  /** Caller 0 is inside `get_or_pull` for stream K, between table operations. */
  ghost predicate Pulling(s: State, stage: Stage) {
    && Reached(s) && s.alive
    && 0 in s.callers && s.callers[0].stage == stage && s.callers[0].key == K
    && s.callers[0].op == NoOp && s.callers[0].done.None?
  }

  lemma {:induction false} InitialReached()
    ensures Reached(INITIAL)
  {
    assert Run(INITIAL, []) == Some(INITIAL);
  }

  /** The pull holds the lock and has not looked around yet. */
  ghost predicate AtLock(s: State) {
    && Pulling(s, Locked) && s.callers.Keys == {0} && s.active == map[] && s.inserted == [] && s.sources == {}
    && s.callers[0].attempts == [] && s.origins.Some? && |s.origins.value| == 1
  }

  ghost predicate AtLoop(s: State) {
    && Pulling(s, Loop) && s.callers.Keys == {0} && s.active == map[] && s.inserted == []
    && s.callers[0].attempts == [] && |s.callers[0].origins| == 1
  }

  /** The pull has inserted its entry and not yet sent its command. */
  ghost predicate AtEntry(s: State) {
    && Reached(s) && s.alive && s.callers.Keys == {0} && K in s.active && |s.inserted| == 1
    && s.callers[0].stage == Attempt && s.callers[0].key == K && s.callers[0].op.Sending?
    && s.callers[0].done.None?
  }

  /** The pull has added its entry and waits for the source. */
  ghost predicate AtWaiting(s: State) {
    Pulling(s, Waiting) && s.callers.Keys == {0} && K in s.active && |s.inserted| == 1
  }

  /** While the pull waits, another caller has removed its entry. */
  ghost predicate Emptied(s: State) {
    Pulling(s, Waiting) && s.callers.Keys == {0, 1} && K !in s.active && |s.inserted| == 1
  }

  /** Another caller's successful `add` has taken the place of the pull's entry. */
  ghost predicate Replaced(s: State) {
    && K in s.active && s.active[K] == Entry(9, 1, false) && 1 in s.outcomes && s.outcomes[1]
    && |s.inserted| == 2 && s.inserted[1].caller == 2
  }

  lemma {:induction false} PullReachesLock()
    ensures exists s: State :: AtLock(s)
  {
    hide Reached, OpStep, RemoveIf;
    InitialReached();
    ReachNext(INITIAL, SetOrigins([7]));
    var s1 := Next(INITIAL, SetOrigins([7])).value;
    ReachNext(s1, CallPull(0, K));
    var s2 := Next(s1, CallPull(0, K)).value;
    ReachNext(s2, Step(0, false));
    var s3 := Next(s2, Step(0, false)).value;
    ReachNext(s3, Step(0, false));
    assert AtLock(Next(s3, Step(0, false)).value);
  }

  lemma {:induction false} PullReachesLoop()
    ensures exists s: State :: AtLoop(s)
  {
    hide Reached, OpStep, RemoveIf;
    PullReachesLock();
    var s0 :| AtLock(s0);
    ReachNext(s0, Step(0, false));
    var s1 := Next(s0, Step(0, false)).value;
    ReachNext(s1, Step(0, false));
    var s2 := Next(s1, Step(0, false)).value;
    ReachNext(s2, Step(0, false));
    assert AtLoop(Next(s2, Step(0, false)).value);
  }

  lemma {:induction false} PullReachesEntry()
    ensures exists s: State :: AtEntry(s)
  {
    hide Reached;
    PullReachesLoop();
    var s0 :| AtLoop(s0);
    ReachNext(s0, Step(0, false));
    var s1 := Next(s0, Step(0, false)).value;
    ReachNext(s1, Step(0, false));
    assert AtEntry(Next(s1, Step(0, false)).value);
  }

  lemma {:induction false} PullReachesWaiting()
    ensures exists s: State :: AtWaiting(s)
  {
    hide Reached;
    PullReachesEntry();
    var s0 :| AtEntry(s0);
    ReachNext(s0, Step(0, false));
    var s1 := Next(s0, Step(0, false)).value;
    ReachNext(s1, Step(0, false));
    assert AtWaiting(Next(s1, Step(0, false)).value);
  }

  lemma {:induction false} EntryIsRemoved()
    ensures exists s: State :: Emptied(s)
  {
    hide Reached;
    PullReachesWaiting();
    var s0 :| AtWaiting(s0);
    ReachNext(s0, CallRemove(1, K));
    var s1 := Next(s0, CallRemove(1, K)).value;
    ReachNext(s1, Step(1, false));
    assert Emptied(Next(s1, Step(1, false)).value);
  }

  lemma {:induction false} EntryIsReplaced()
    ensures exists s: State :: Pulling(s, Waiting) && Replaced(s)
  {
    hide Reached;
    EntryIsRemoved();
    var s0 :| Emptied(s0);
    ReachNext(s0, CallAdd(2, K, 9, false));
    var s1 := Next(s0, CallAdd(2, K, 9, false)).value;
    ReachNext(s1, Step(2, false));
    var s2 := Next(s1, Step(2, false)).value;
    ReachNext(s2, Step(2, false));
    var s3 := Next(s2, Step(2, false)).value;
    assert Pulling(s3, Waiting) && Replaced(s3);
  }

  /** In a reachable state, caller 0 is about to clean up its pull and will take the entry of caller 2. */
  ghost predicate TakesAnother(s: State) {
    && Reached(s) && Replaced(s)
    && 0 in s.callers && s.callers[0].stage == Cleanup && s.callers[0].op == Taking(K)
    && Next(s, Step(0, false)).Some? && K !in Next(s, Step(0, false)).value.active
  }

  /** While a pull waits, its entry can be removed and another caller's `add` can succeed; the pull's
    * clean-up then takes that entry, although it belongs to a persistent proxy. */
  lemma {:induction false} CleanupCanTakeAnother()
    ensures exists s: State :: TakesAnother(s)
  {
    hide Reached;
    EntryIsReplaced();
    var s0 :| Pulling(s0, Waiting) && Replaced(s0);
    ReachNext(s0, Step(0, false));
    assert TakesAnother(Next(s0, Step(0, false)).value);
  }
}
