/** What `add` returned and whose entry a removal takes, over every run of the proxy table
  * (crates/core/src/stream_proxy.rs, `get_or_pull` of crates/core/src/media_source.rs).
  */
module ProxyHistory {
  import opened Bytes
  import opened ProxyTable

  // ---- an entry is the latest insertion of its key ----

  ghost predicate NoLater(s: State, key: Key, token: nat) {
    forall i :: token < i < |s.inserted| ==> s.inserted[i].key != key
  }

  ghost predicate LatestOk(s: State) {
    forall key :: key in s.active ==> NoLater(s, key, s.active[key].token)
  }

  /** The step inserts one entry for a free key, or inserts nothing and at most removes entries. */
  ghost predicate Growth(s: State, t: State) {
    || (t.inserted == s.inserted && forall key :: key in t.active ==> key in s.active && t.active[key] == s.active[key])
    || (exists key, e: Entry, n: Insertion :: InsertsOne(s, t, key, e, n))
  }

  ghost predicate InsertsOne(s: State, t: State, key: Key, e: Entry, n: Insertion) {
    t.inserted == s.inserted + [n] && n.key == key && e.token == |s.inserted| && t.active == s.active[key := e]
  }

  lemma {:induction false} NextGrows(s: State, e: Event)
    requires Next(s, e).Some?
    ensures Growth(s, Next(s, e).value)
  {
    hide StageStep;
    if e.Step? && s.callers[e.c].op.Adding? && s.callers[e.c].op.key !in s.active {
      var op := s.callers[e.c].op;
      assert InsertsOne(s, Next(s, e).value, op.key, Entry(op.url, |s.inserted|, op.onDemand),
                        Insertion(op.key, op.url, e.c));
    }
  }

  lemma {:induction false} GrowthKeepsLatest(s: State, t: State)
    requires LatestOk(s) && Growth(s, t)
    ensures LatestOk(t)
  {
    forall key | key in t.active
      ensures NoLater(t, key, t.active[key].token)
    {
      assert key in s.active ==> NoLater(s, key, s.active[key].token);
    }
  }

  lemma {:induction false} RunKeepsLatest(s: State, events: seq<Event>)
    requires LatestOk(s) && Run(s, events).Some?
    ensures LatestOk(Run(s, events).value)
    decreases |events|
  {
    hide LatestOk, Growth, Next;
    if events != [] {
      NextGrows(s, events[0]);
      GrowthKeepsLatest(s, Next(s, events[0]).value);
      RunKeepsLatest(Next(s, events[0]).value, events[1..]);
    }
  }

  lemma {:induction false} AlwaysLatest(events: seq<Event>)
    requires Run(INITIAL, events).Some?
    ensures LatestOk(Run(INITIAL, events).value)
  {
    hide Run;
    RunKeepsLatest(INITIAL, events);
  }

  // ---- whose entry leaves ----

  /** The event takes the entry of `key` out of the table. */
  predicate Removes(s: State, e: Event, key: Key)
    requires key in s.active
  {
    match e
    case Step(c, _) =>
      && c in s.callers && s.callers[c].done.None?
      && (match s.callers[c].op
          case Taking(k) => k == key
          case RollingBack(k, token) => k == key && token == s.active[key].token
          case _ => false)
    case TaskEnds(k, token) => k == key && token == s.active[key].token
    case _ => false
  }

  lemma {:induction false} StepRemoves(s: State, e: Event, key: Key)
    requires key in s.active && Next(s, e).Some?
    ensures var t := Next(s, e).value;
            if Removes(s, e, key) then key !in t.active else key in t.active && t.active[key] == s.active[key]
  {
    hide StageStep;
  }

  /** In every run an entry leaves the table exactly by a removal of its key, by the end of its own task or by
    * the roll-back of the very caller that inserted it. */
  lemma {:induction false} EntryLeavesExactly(events: seq<Event>, e: Event, key: Key)
    requires Run(INITIAL, events).Some?
    requires var s := Run(INITIAL, events).value; key in s.active && Next(s, e).Some?
    ensures var s, t := Run(INITIAL, events).value, Next(Run(INITIAL, events).value, e).value;
            && (key !in t.active <==> Removes(s, e, key))
            && (key in t.active ==> t.active[key] == s.active[key])
            && s.active[key].token < |s.inserted|
            && (key !in t.active && e.Step? && s.callers[e.c].op.RollingBack? ==>
                 s.inserted[s.active[key].token].caller == e.c)
  {
    hide Run, Next;
    Reachable(events);
    var s := Run(INITIAL, events).value;
    StepRemoves(s, e, key);
    if e.Step? && Removes(s, e, key) {
      assert OpOk(s, e.c);
    }
  }

  /** The latest insertion of a caller. */
  ghost predicate LastOwn(s: State, c: nat, own: nat) {
    && own < |s.inserted| && s.inserted[own].caller == c
    && forall i :: own < i < |s.inserted| ==> s.inserted[i].caller != c
  }

  /** The caller is about to clean up after a pull whose source did not come. */
  ghost predicate CleansUp(s: State, c: nat) {
    && c in s.callers && s.callers[c].stage == Cleanup && s.callers[c].op == Taking(s.callers[c].key)
    && s.callers[c].done.None? && s.callers[c].key in s.active
  }

  /** In every run the clean-up of a pull stops and removes the pull's own entry if and only if nobody has
    * inserted an entry for that stream since; otherwise it takes that other entry. */
  lemma {:induction false} CleanupTakesOwn(events: seq<Event>, c: nat, own: nat, found: bool)
    requires Run(INITIAL, events).Some?
    requires var s := Run(INITIAL, events).value; CleansUp(s, c) && LastOwn(s, c, own)
    ensures var s := Run(INITIAL, events).value;
            var key := s.callers[c].key;
            && s.active[key].token < |s.inserted|
            && Next(s, Step(c, found)).Some? && key !in Next(s, Step(c, found)).value.active
            && (Next(s, Step(c, found)).value.callers[c].op == Stopping(own) <==> NoLater(s, key, own))
            && (s.inserted[s.active[key].token].caller == c <==> NoLater(s, key, own))
  {
    hide Run;
    Reachable(events);
    AlwaysLatest(events);
    var s := Run(INITIAL, events).value;
    hide StageStep, TokensOk, CallerOk, MayOwn, Holding;
    assert PullOk(s, c);
    assert NoLater(s, s.callers[c].key, s.active[s.callers[c].key].token);
  }

  // ---- a cleaning pull has an insertion of its own ----

  /** The caller's `add` for the present origin has inserted an entry. */
  predicate HasAdded(k: Caller) {
    || (k.stage == Attempt && (k.op.Sending? || k.op.RollingBack? || (k.op == NoOp && k.last)))
    || k.stage == Waiting || k.stage == Cleanup
  }

  ghost predicate HasOwn(s: State, c: nat) {
    exists i :: 0 <= i < |s.inserted| && s.inserted[i].caller == c
  }

  ghost predicate AddedOk(s: State) {
    forall c :: c in s.callers && HasAdded(s.callers[c]) ==> HasOwn(s, c)
  }

  /** A step changes one caller, and records insertions of that caller only. */
  ghost predicate Records(s: State, c: nat, t: State) {
    && c in t.callers && t.callers == s.callers[c := t.callers[c]] && s.inserted <= t.inserted
    && forall i :: |s.inserted| <= i < |t.inserted| ==> t.inserted[i].caller == c
  }

  lemma {:induction false} OpRecords(s: State, c: nat)
    requires c in s.callers && s.callers[c].op != NoOp
    ensures Records(s, c, OpStep(s, c, s.callers[c]))
  {
  }

  lemma {:induction false} OpStage(k: Caller)
    requires k.op != NoOp && (k.stage != Plain ==> CallerOk(k))
    ensures k.stage == Plain || k.stage == if k.op.Taking? || k.op.Stopping? then Cleanup else Attempt
  {
  }

  lemma {:induction false} OpAdds(s: State, c: nat)
    requires c in s.callers && s.callers[c].op != NoOp && (s.callers[c].stage != Plain ==> CallerOk(s.callers[c]))
    ensures var t := OpStep(s, c, s.callers[c]);
            c in t.callers && (HasAdded(t.callers[c]) ==> HasAdded(s.callers[c]) || |s.inserted| < |t.inserted|)
  {
    OpStage(s.callers[c]);
    hide CallerOk, RemoveIf;
  }

  lemma {:induction false} MoveAdds(s: State, c: nat, k: Caller, found: bool)
    requires k.op == NoOp && StageStep(s, c, k, found).Some?
    ensures HasAdded(StageStep(s, c, k, found).value.k) ==> HasAdded(k)
  {
  }

  lemma {:induction false} RecordsKeepAdded(s: State, c: nat, t: State)
    requires AddedOk(s) && Records(s, c, t)
    requires HasAdded(t.callers[c]) ==> (c in s.callers && HasAdded(s.callers[c])) || |s.inserted| < |t.inserted|
    ensures AddedOk(t)
  {
    hide HasAdded;
    forall d | d in t.callers && HasAdded(t.callers[d])
      ensures HasOwn(t, d)
    {
      if d in s.callers && HasAdded(s.callers[d]) {
        var i :| 0 <= i < |s.inserted| && s.inserted[i].caller == d;
        assert t.inserted[i].caller == d;
      } else {
        assert t.inserted[|s.inserted|].caller == d;
      }
    }
  }

  lemma {:induction false} NextKeepsAdded(s: State, e: Event)
    requires Inv(s) && AddedOk(s) && Next(s, e).Some?
    ensures AddedOk(Next(s, e).value)
  {
    hide TokensOk, OpStep, StageStep, RemoveIf, CallerOk, MayOwn, Holding;
    var t := Next(s, e).value;
    if e.Step? {
      var k := s.callers[e.c];
      assert PullOk(s, e.c);
      if k.op != NoOp {
        OpRecords(s, e.c);
        OpAdds(s, e.c);
      } else {
        MoveAdds(s, e.c, k, e.found);
      }
      RecordsKeepAdded(s, e.c, t);
    } else if e.CallAdd? || e.CallRemove? || e.CallPull? {
      RecordsKeepAdded(s, e.c, t);
    }
  }

  lemma {:induction false} RunKeepsAdded(s: State, events: seq<Event>)
    requires Inv(s) && AddedOk(s) && Run(s, events).Some?
    ensures AddedOk(Run(s, events).value)
    decreases |events|
  {
    hide TokensOk, PullsOk, AddedOk, Next;
    if events != [] {
      NextKeepsAdded(s, events[0]);
      NextKeepsTokens(s, events[0]);
      NextKeepsPulls(s, events[0]);
      RunKeepsAdded(Next(s, events[0]).value, events[1..]);
    }
  }

  lemma {:induction false} LastExists(s: State, c: nat, i: nat)
    requires i < |s.inserted| && s.inserted[i].caller == c
    ensures exists own: nat :: LastOwn(s, c, own)
    decreases |s.inserted| - i
  {
    if j :| i < j < |s.inserted| && s.inserted[j].caller == c {
      LastExists(s, c, j);
    } else {
      assert LastOwn(s, c, i);
    }
  }

  /** A pull that cleans up has inserted an entry before, so `CleanupTakesOwn` decides every clean-up. */
  lemma {:induction false} CleanupHasOwn(events: seq<Event>, c: nat)
    requires Run(INITIAL, events).Some?
    requires CleansUp(Run(INITIAL, events).value, c)
    ensures exists own: nat :: LastOwn(Run(INITIAL, events).value, c, own)
  {
    hide Run;
    InitialOk();
    RunKeepsAdded(INITIAL, events);
    var s := Run(INITIAL, events).value;
    assert HasOwn(s, c);
    var i :| 0 <= i < |s.inserted| && s.inserted[i].caller == c;
    LastExists(s, c, i);
  }

  // ---- what `add` returned ----

  ghost predicate Sole(s: State, c: nat, t: nat) {
    && t < |s.inserted| && s.inserted[t].caller == c
    && forall i :: 0 <= i < |s.inserted| && s.inserted[i].caller == c ==> i == t
  }

  /** The caller's only insertion is kept. */
  ghost predicate Kept(s: State, c: nat, key: Key, url: Url, t: nat) {
    Sole(s, c, t) && s.inserted[t] == Insertion(key, url, c) && t in s.outcomes && s.outcomes[t]
  }

  ghost predicate Undone(s: State, c: nat) {
    forall t :: 0 <= t < |s.inserted| && s.inserted[t].caller == c ==> t in s.outcomes && !s.outcomes[t]
  }

  /** Where a call of `add` stands, and what it has done so far. */
  ghost predicate AddOk(s: State, c: nat, key: Key, url: Url) {
    && c in s.callers && s.callers[c].stage == Plain && (s.callers[c].op != NoOp ==> s.callers[c].done.None?)
    && match s.callers[c].op
       case Adding(k, u, _) => k == key && u == url && forall i :: 0 <= i < |s.inserted| ==> s.inserted[i].caller != c
       case Sending(_, _, t) => Sole(s, c, t) && s.inserted[t] == Insertion(key, url, c)
       case RollingBack(_, t) => Sole(s, c, t)
       case NoOp =>
         && (s.callers[c].done.None? || s.callers[c].done == Some(s.callers[c].last))
         && (if s.callers[c].last then exists t: nat :: Kept(s, c, key, url, t) else Undone(s, c))
       case _ => false
  }

  /** What the steps of others leave to caller `c`. */
  ghost predicate Spares(s: State, c: nat, t: State) {
    && c in s.callers && c in t.callers && t.callers[c] == s.callers[c] && s.inserted <= t.inserted
    && (forall i :: |s.inserted| <= i < |t.inserted| ==> t.inserted[i].caller != c)
    && (forall i :: 0 <= i < |s.inserted| && s.inserted[i].caller == c && i in s.outcomes ==>
          i in t.outcomes && t.outcomes[i] == s.outcomes[i])
  }

  lemma {:induction false} SparesKeepsAdd(s: State, c: nat, t: State, key: Key, url: Url)
    requires AddOk(s, c, key, url) && Spares(s, c, t)
    ensures AddOk(t, c, key, url)
  {
    if s.callers[c].op == NoOp && s.callers[c].last {
      var i: nat :| Kept(s, c, key, url, i);
      assert Kept(t, c, key, url, i);
    }
  }

  lemma {:induction false} OpSpares(s: State, d: nat, c: nat)
    requires OpsOk(s) && c in s.callers && d in s.callers && d != c && s.callers[d].op != NoOp
    ensures Spares(s, c, OpStep(s, d, s.callers[d]))
  {
    assert OpOk(s, d);
  }

  lemma {:induction false} OthersSpare(s: State, e: Event, c: nat)
    requires OpsOk(s) && c in s.callers && Next(s, e).Some? && (e.Step? ==> e.c != c)
    ensures Spares(s, c, Next(s, e).value)
  {
    hide StageStep, OpStep, OpsOk;
    if e.Step? && s.callers[e.c].op != NoOp {
      OpSpares(s, e.c, c);
    }
  }

  lemma {:induction false} OwnStepKeepsAdd(s: State, c: nat, key: Key, url: Url)
    requires AddOk(s, c, key, url) && s.callers[c].op != NoOp
    ensures AddOk(OpStep(s, c, s.callers[c]), c, key, url)
  {
    var t := OpStep(s, c, s.callers[c]);
    if s.callers[c].op.Sending? && s.alive {
      assert Kept(t, c, key, url, s.callers[c].op.token);
    }
  }

  lemma {:induction false} NextKeepsAdd(s: State, e: Event, c: nat, key: Key, url: Url)
    requires TokensOk(s) && AddOk(s, c, key, url) && Next(s, e).Some?
    ensures AddOk(Next(s, e).value, c, key, url)
  {
    if e.Step? && e.c == c {
      hide TokensOk, OpStep;
      if s.callers[c].op != NoOp {
        OwnStepKeepsAdd(s, c, key, url);
      } else {
        var t := Next(s, e).value;
        if s.callers[c].last {
          var i: nat :| Kept(s, c, key, url, i);
          assert Kept(t, c, key, url, i);
        }
      }
    } else {
      hide Next, AddOk, Spares, TableOk, QueueOk, OutcomesOk, OpsOk;
      AddCaller(s, c, key, url);
      OthersSpare(s, e, c);
      SparesKeepsAdd(s, c, Next(s, e).value, key, url);
    }
  }

  lemma {:induction false} AddCaller(s: State, c: nat, key: Key, url: Url)
    requires AddOk(s, c, key, url)
    ensures c in s.callers
  {
  }

  lemma {:induction false} RunKeepsAdd(s: State, events: seq<Event>, c: nat, key: Key, url: Url)
    requires TokensOk(s) && AddOk(s, c, key, url) && Run(s, events).Some?
    ensures AddOk(Run(s, events).value, c, key, url)
    decreases |events|
  {
    hide TokensOk, AddOk, Next;
    if events != [] {
      NextKeepsAdd(s, events[0], c, key, url);
      NextKeepsTokens(s, events[0]);
      RunKeepsAdd(Next(s, events[0]).value, events[1..], c, key, url);
    }
  }

  /** From the call on, wherever it stands in the run. */
  lemma {:induction false} CalledAddOk(s: State, events: seq<Event>, i: nat, c: nat, key: Key, url: Url, onDemand: bool)
    requires Inv(s) && Run(s, events).Some? && i < |events| && events[i] == CallAdd(c, key, url, onDemand)
    ensures AddOk(Run(s, events).value, c, key, url)
    decreases |events|
  {
    hide TokensOk, PullsOk, AddOk;
    if i == 0 {
      CallStartsAdd(s, c, key, url, onDemand);
      NextKeepsTokens(s, events[0]);
      RunKeepsAdd(Next(s, events[0]).value, events[1..], c, key, url);
    } else {
      hide Next;
      NextKeepsTokens(s, events[0]);
      NextKeepsPulls(s, events[0]);
      CalledAddOk(Next(s, events[0]).value, events[1..], i - 1, c, key, url, onDemand);
    }
  }

  lemma {:induction false} CallStartsAdd(s: State, c: nat, key: Key, url: Url, onDemand: bool)
    requires PullsOk(s) && Next(s, CallAdd(c, key, url, onDemand)).Some?
    ensures AddOk(Next(s, CallAdd(c, key, url, onDemand)).value, c, key, url)
  {
    hide PullOk, TableOk;
  }

  /** Exactly one command carries the token, with this key and address. */
  ghost predicate CommandedOnce(s: State, key: Key, url: Url, t: nat) {
    exists i :: 0 <= i < |s.queue| && s.queue[i] == Cmd(url, key, t)
      && forall j :: 0 <= j < |s.queue| && s.queue[j].token == t ==> j == i
  }

  /** `add` is all or nothing, in every run: one that returned success made exactly one insertion, and exactly one
    * command carries its token, key and address; one that returned failure left no command and no entry. */
  lemma {:induction false} AddIsAtomic(events: seq<Event>, i: nat, c: nat, key: Key, url: Url, onDemand: bool)
    requires Run(INITIAL, events).Some? && i < |events| && events[i] == CallAdd(c, key, url, onDemand)
    ensures var s := Run(INITIAL, events).value;
            && c in s.callers
            && (s.callers[c].done == Some(true) ==>
                  exists t: nat ::
                    Sole(s, c, t) && s.inserted[t] == Insertion(key, url, c) && CommandedOnce(s, key, url, t))
            && (s.callers[c].done == Some(false) ==>
                  forall t :: 0 <= t < |s.inserted| && s.inserted[t].caller == c ==> !Queued(s, t) && !InTable(s, t))
  {
    hide Run, TokensOk, PullsOk, Queued, InTable;
    InitialOk();
    CalledAddOk(INITIAL, events, i, c, key, url, onDemand);
    var s := Run(INITIAL, events).value;
    if s.callers[c].done == Some(true) {
      var t: nat :| Kept(s, c, key, url, t);
      DecidedIsAtomic(events, t);
    } else if s.callers[c].done == Some(false) {
      forall t | 0 <= t < |s.inserted| && s.inserted[t].caller == c
        ensures !Queued(s, t) && !InTable(s, t)
      {
        DecidedIsAtomic(events, t);
      }
    }
  }
}
