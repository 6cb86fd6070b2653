/** The registry of run executions: who holds a run, when it is over, and what shutdown guarantees. */
module ExecutionControl {
  import opened Wrappers

  /** One execution of a run. Its number in the table stands for object identity. */
  datatype Entry = Entry(runId: string, aborted: bool, done: bool, threadId: Option<string>, holders: int, mainActive: bool)

  /** What a successful registration returns to its caller. */
  datatype Handle = Handle(entry: nat, main: bool, finished: bool)

  datatype Error = AlreadyActive | Canceled | ShuttingDown | NoExecution | OtherThread

  datatype State = State(active: map<string, nat>, entries: seq<Entry>, handles: seq<Handle>,
                         accepting: bool, shuttingDown: bool)

  const INITIAL := State(map[], [], [], true, false)

  /** Numbers in the maps and handles always name an entry of the table. */
  predicate Closed(s: State) {
    && (forall r :: r in s.active ==> s.active[r] < |s.entries|)
    && (forall h :: 0 <= h < |s.handles| ==> s.handles[h].entry < |s.entries|)
  }

  // ----- The operations -----

  /** A holder joins entry `e`; a main one only if the entry has none and is not aborted. */
  function Join(s: State, e: nat, main: bool): (r: Result<State, Error>)
    requires e < |s.entries|
  {
    var entry := s.entries[e];
    if main && entry.mainActive then Err(AlreadyActive)
    else if main && entry.aborted then Err(Canceled)
    else Ok(s.(entries := s.entries[e := entry.(mainActive := entry.mainActive || main, holders := entry.holders + 1)],
               handles := s.handles + [Handle(e, main, false)]))
  }

  function Register(s: State, runId: string): Result<State, Error>
    requires Closed(s)
  {
    if runId in s.active then Join(s, s.active[runId], true)
    else if !s.accepting then Err(ShuttingDown)
    else
      var e := |s.entries|;
      Join(s.(entries := s.entries + [Entry(runId, false, false, None, 0, false)], active := s.active[runId := e]), e, true)
  }

  function Retain(s: State, runId: string): Result<State, Error>
    requires Closed(s)
  {
    if runId in s.active then Join(s, s.active[runId], false) else Err(NoExecution)
  }

  /** A holder leaves; the last one takes the entry out of the map and resolves `done`. */
  function Finish(s: State, h: nat): State
    requires Closed(s) && h < |s.handles|
  {
    var handle := s.handles[h];
    if handle.finished then s
    else
      var entry := s.entries[handle.entry];
      var left := entry.(mainActive := entry.mainActive && !handle.main, holders := entry.holders - 1);
      var over := left.holders <= 0 && entry.runId in s.active && s.active[entry.runId] == handle.entry;
      s.(handles := s.handles[h := handle.(finished := true)],
         entries := s.entries[handle.entry := left.(done := left.done || over)],
         active := if over then s.active - {entry.runId} else s.active)
  }

  function Abort(s: State, runId: string): State
    requires Closed(s)
  {
    if runId in s.active
    then s.(entries := s.entries[s.active[runId] := s.entries[s.active[runId]].(aborted := true)])
    else s
  }

  predicate IsActive(s: State, e: nat) {
    exists r :: r in s.active && s.active[r] == e
  }

  /** Aborts every active entry that satisfies `hit`. */
  function AbortWhere(s: State, hit: Entry -> bool): (r: State)
    ensures |r.entries| == |s.entries| && r == s.(entries := r.entries)
    ensures forall e :: 0 <= e < |s.entries| ==>
              r.entries[e] == if IsActive(s, e) && hit(s.entries[e]) then s.entries[e].(aborted := true) else s.entries[e]
  {
    s.(entries := seq(|s.entries|, e requires 0 <= e < |s.entries| =>
         if IsActive(s, e) && hit(s.entries[e]) then s.entries[e].(aborted := true) else s.entries[e]))
  }

  predicate OnThread(threadId: Option<string>, threadIds: set<string>) {
    threadId.Some? && threadId.value != "" && threadId.value in threadIds
  }

  /** Aborts the entries that these run ids lead to. */
  function AbortIds(s: State, ids: set<string>): (r: State)
    requires Closed(s)
    ensures Closed(r)
  {
    s.(entries := seq(|s.entries|, e requires 0 <= e < |s.entries| =>
         if exists r :: r in ids && r in s.active && s.active[r] == e then s.entries[e].(aborted := true) else s.entries[e]))
  }

  lemma AbortNone(s: State)
    requires Closed(s)
    ensures AbortIds(s, {}) == s
  {
  }

  lemma AbortOneMore(s: State, ids: set<string>, r: string)
    requires Closed(s) && r in s.active
    ensures Abort(AbortIds(s, ids), r) == AbortIds(s, ids + {r})
  {
  }

  lemma AbortAll(s: State, ids: set<string>, hit: Entry -> bool)
    requires Closed(s) && forall r :: r in ids <==> r in s.active && hit(s.entries[s.active[r]])
    ensures AbortIds(s, ids) == AbortWhere(s, hit)
  {
    forall e | 0 <= e < |s.entries|
      ensures (exists r :: r in ids && r in s.active && s.active[r] == e) <==> IsActive(s, e) && hit(s.entries[e])
    {
    }
  }

  function AbortThreads(s: State, threadIds: set<string>): State {
    AbortWhere(s, (e: Entry) => OnThread(e.threadId, threadIds))
  }

  function AbortMapped(s: State): State {
    AbortWhere(s, (e: Entry) => true)
  }

  function Shutdown(s: State): State {
    AbortMapped(s.(accepting := false, shuttingDown := true))
  }

  function BindThread(s: State, h: nat, threadId: string): Result<State, Error>
    requires Closed(s) && h < |s.handles|
  {
    var e := s.handles[h].entry;
    var bound := s.entries[e].threadId;
    if bound.Some? && bound.value != "" && bound.value != threadId then Err(OtherThread)
    else Ok(s.(entries := s.entries[e := s.entries[e].(threadId := Some(threadId))]))
  }

  // ----- The invariant -----

  predicate Open(h: Handle, e: nat) {
    !h.finished && h.entry == e
  }

  /** How many unfinished handles hold entry `e`. */
  function Holders(hs: seq<Handle>, e: nat): nat {
    if hs == [] then 0 else Holders(hs[..|hs| - 1], e) + (if Open(hs[|hs| - 1], e) then 1 else 0)
  }

  function Mains(hs: seq<Handle>, e: nat): nat {
    if hs == [] then 0
    else Mains(hs[..|hs| - 1], e) + (if Open(hs[|hs| - 1], e) && hs[|hs| - 1].main then 1 else 0)
  }

  /** One entry is in order: its counters match the handles, and it is in the map, not done, exactly
      while someone holds it. */
  ghost predicate EntryInOrder(s: State, e: nat)
    requires e < |s.entries|
  {
    var entry := s.entries[e];
    && entry.holders == Holders(s.handles, e)
    && Mains(s.handles, e) == (if entry.mainActive then 1 else 0)
    && (entry.holders > 0 <==> entry.runId in s.active && s.active[entry.runId] == e)
    && (entry.done <==> entry.holders == 0)
  }

  ghost predicate Inv(s: State) {
    && Closed(s)
    && (forall r :: r in s.active ==> s.entries[s.active[r]].runId == r)
    && (forall e: nat :: e < |s.entries| ==> EntryInOrder(s, e))
    && (s.shuttingDown ==> !s.accepting && forall r :: r in s.active ==> s.entries[s.active[r]].aborted)
  }

  // ----- Counting -----

  lemma {:induction false} CountSnoc(hs: seq<Handle>, h: Handle, e: nat)
    ensures Holders(hs + [h], e) == Holders(hs, e) + (if Open(h, e) then 1 else 0)
    ensures Mains(hs + [h], e) == Mains(hs, e) + (if Open(h, e) && h.main then 1 else 0)
  {
    assert (hs + [h])[..|hs|] == hs;
  }

  lemma {:induction false} CountClose(hs: seq<Handle>, k: nat, e: nat)
    requires k < |hs| && !hs[k].finished
    ensures var closed := hs[k := hs[k].(finished := true)];
      && Holders(closed, e) == Holders(hs, e) - (if hs[k].entry == e then 1 else 0)
      && Mains(closed, e) == Mains(hs, e) - (if hs[k].entry == e && hs[k].main then 1 else 0)
  {
    var n := |hs| - 1;
    var closed := hs[k := hs[k].(finished := true)];
    if k < n {
      CountClose(hs[..n], k, e);
      assert closed[..n] == hs[..n][k := hs[k].(finished := true)];
    } else {
      assert closed[..n] == hs[..n];
    }
  }

  lemma {:induction false} CountNone(hs: seq<Handle>, e: nat)
    requires forall k :: 0 <= k < |hs| ==> hs[k].entry < e
    ensures Holders(hs, e) == 0 && Mains(hs, e) == 0
  {
    if hs != [] {
      CountNone(hs[..|hs| - 1], e);
    }
  }

  lemma {:induction false} CountSome(hs: seq<Handle>, k: nat)
    requires k < |hs| && !hs[k].finished
    ensures Holders(hs, hs[k].entry) > 0
    ensures hs[k].main ==> Mains(hs, hs[k].entry) > 0
  {
    if k < |hs| - 1 {
      CountSome(hs[..|hs| - 1], k);
    }
  }

  /** Two open main handles of one entry count as two. */
  lemma {:induction false} CountTwo(hs: seq<Handle>, j: nat, k: nat)
    requires j < k < |hs| && !hs[j].finished && !hs[k].finished && hs[j].main && hs[k].main
    requires hs[j].entry == hs[k].entry
    ensures Mains(hs, hs[k].entry) >= 2
  {
    if k < |hs| - 1 {
      CountTwo(hs[..|hs| - 1], j, k);
    } else {
      CountSome(hs[..|hs| - 1], j);
    }
  }

  // ----- Every operation keeps the invariant -----

  lemma JoinKeepsInv(s: State, e: nat, main: bool)
    requires Inv(s) && IsActive(s, e) && Join(s, e, main).Ok?
    ensures Inv(Join(s, e, main).value)
  {
    var t := Join(s, e, main).value;
    forall k: nat | k < |t.entries| ensures EntryInOrder(t, k) {
      assert EntryInOrder(s, k);
      CountSnoc(s.handles, Handle(e, main, false), k);
    }
  }

  lemma RegisterKeepsInv(s: State, runId: string)
    requires Inv(s) && Register(s, runId).Ok?
    ensures Inv(Register(s, runId).value)
  {
    if runId in s.active {
      JoinKeepsInv(s, s.active[runId], true);
    } else {
      var t := Register(s, runId).value;
      var e := |s.entries|;
      forall k: nat | k < |t.entries| ensures EntryInOrder(t, k) {
        CountSnoc(s.handles, Handle(e, true, false), k);
        CountNone(s.handles, e);
        if k < e {
          assert EntryInOrder(s, k);
        }
      }
    }
  }

  lemma FinishKeepsInv(s: State, h: nat)
    requires Inv(s) && h < |s.handles|
    ensures Inv(Finish(s, h))
  {
    var handle := s.handles[h];
    if !handle.finished {
      var t := Finish(s, h);
      assert EntryInOrder(s, handle.entry);
      CountSome(s.handles, h);
      forall k: nat | k < |t.entries| ensures EntryInOrder(t, k) {
        assert EntryInOrder(s, k);
        CountClose(s.handles, h, k);
      }
    }
  }

  lemma AbortWhereKeepsInv(s: State, hit: Entry -> bool)
    requires Inv(s)
    ensures Inv(AbortWhere(s, hit))
  {
    var t := AbortWhere(s, hit);
    forall k: nat | k < |t.entries| ensures EntryInOrder(t, k) {
      assert EntryInOrder(s, k);
    }
  }

  lemma ShutdownKeepsInv(s: State)
    requires Inv(s)
    ensures Inv(Shutdown(s))
  {
    var t := Shutdown(s);
    forall k: nat | k < |t.entries| ensures EntryInOrder(t, k) {
      assert EntryInOrder(s, k);
    }
    forall r | r in t.active ensures t.entries[t.active[r]].aborted {
      assert IsActive(s, s.active[r]);
    }
  }

  lemma TouchKeepsInv(s: State, e: nat, entry: Entry)
    requires Inv(s) && e < |s.entries|
    requires entry == s.entries[e].(aborted := entry.aborted, threadId := entry.threadId)
    requires s.entries[e].aborted ==> entry.aborted
    ensures Inv(s.(entries := s.entries[e := entry]))
  {
    var t := s.(entries := s.entries[e := entry]);
    forall k: nat | k < |t.entries| ensures EntryInOrder(t, k) {
      assert EntryInOrder(s, k);
    }
  }

  // ----- Every run -----

  datatype Op =
    | DoRegister(runId: string)
    | DoRetain(runId: string)
    | DoFinish(handle: nat)
    | DoAbort(runId: string)
    | DoAbortThreads(threadIds: set<string>)
    | DoBindThread(handle: nat, threadId: string)
    | DoShutdown

  function OrSame(s: State, r: Result<State, Error>): State {
    if r.Ok? then r.value else s
  }

  /** One call; a call that throws changes nothing, and a handle nobody was given cannot be used. */
  function Step(s: State, op: Op): (r: State)
    requires Closed(s)
    ensures Closed(r)
  {
    match op
    case DoRegister(runId) => OrSame(s, Register(s, runId))
    case DoRetain(runId) => OrSame(s, Retain(s, runId))
    case DoFinish(h) => if h < |s.handles| then Finish(s, h) else s
    case DoAbort(runId) => Abort(s, runId)
    case DoAbortThreads(threadIds) => AbortThreads(s, threadIds)
    case DoBindThread(h, threadId) => if h < |s.handles| then OrSame(s, BindThread(s, h, threadId)) else s
    case DoShutdown => Shutdown(s)
  }

  function Run(s: State, ops: seq<Op>): (r: State)
    requires Closed(s)
    ensures Closed(r)
  {
    if ops == [] then s else Step(Run(s, ops[..|ops| - 1]), ops[|ops| - 1])
  }

  lemma StepKeepsInv(s: State, op: Op)
    requires Inv(s)
    ensures Inv(Step(s, op))
  {
    match op
    case DoRegister(runId) => if Register(s, runId).Ok? { RegisterKeepsInv(s, runId); }
    case DoRetain(runId) => if Retain(s, runId).Ok? { JoinKeepsInv(s, s.active[runId], false); }
    case DoFinish(h) => if h < |s.handles| { FinishKeepsInv(s, h); }
    case DoAbort(runId) =>
      if runId in s.active {
        TouchKeepsInv(s, s.active[runId], s.entries[s.active[runId]].(aborted := true));
      }
    case DoAbortThreads(threadIds) =>
      AbortWhereKeepsInv(s, (e: Entry) => OnThread(e.threadId, threadIds));
      assert AbortThreads(s, threadIds) == AbortWhere(s, (e: Entry) => OnThread(e.threadId, threadIds));
    case DoBindThread(h, threadId) =>
      if h < |s.handles| && BindThread(s, h, threadId).Ok? {
        var e := s.handles[h].entry;
        TouchKeepsInv(s, e, s.entries[e].(threadId := Some(threadId)));
      }
    case DoShutdown => ShutdownKeepsInv(s);
  }

  /** The invariant holds after every sequence of calls. */
  lemma {:induction false} RunKeepsInv(s: State, ops: seq<Op>)
    requires Inv(s)
    ensures Inv(Run(s, ops))
  {
    if ops != [] {
      RunKeepsInv(s, ops[..|ops| - 1]);
      StepKeepsInv(Run(s, ops[..|ops| - 1]), ops[|ops| - 1]);
    }
  }

  // ----- What every reachable state guarantees -----

  ghost predicate Reachable(s: State) {
    exists ops :: Run(INITIAL, ops) == s
  }

  lemma ReachableInv(s: State)
    requires Reachable(s)
    ensures Inv(s)
  {
    var ops :| Run(INITIAL, ops) == s;
    RunKeepsInv(INITIAL, ops);
  }

  /** A run is in the map exactly while one of its handles is unfinished. */
  lemma MappedIffHeld(s: State, runId: string)
    requires Reachable(s)
    ensures Inv(s)
    ensures runId in s.active <==> exists h :: 0 <= h < |s.handles| && !s.handles[h].finished
                                      && s.entries[s.handles[h].entry].runId == runId
  {
    ReachableInv(s);
    if runId in s.active {
      var e := s.active[runId];
      assert EntryInOrder(s, e);
      SomeoneHolds(s.handles, e);
    }
    if h: nat :| h < |s.handles| && !s.handles[h].finished && s.entries[s.handles[h].entry].runId == runId {
      CountSome(s.handles, h);
      assert EntryInOrder(s, s.handles[h].entry);
    }
  }

  lemma {:induction false} SomeoneHolds(hs: seq<Handle>, e: nat)
    requires Holders(hs, e) > 0
    ensures exists h :: 0 <= h < |hs| && Open(hs[h], e)
  {
    if !Open(hs[|hs| - 1], e) {
      SomeoneHolds(hs[..|hs| - 1], e);
      var h :| 0 <= h < |hs| - 1 && Open(hs[..|hs| - 1][h], e);
      assert Open(hs[h], e);
    }
  }

  /** At most one main executor per run is active. */
  lemma OneMainPerRun(s: State, j: nat, k: nat)
    requires Reachable(s) && j < |s.handles| && k < |s.handles|
    requires Closed(s)
    requires !s.handles[j].finished && s.handles[j].main && !s.handles[k].finished && s.handles[k].main
    requires s.entries[s.handles[j].entry].runId == s.entries[s.handles[k].entry].runId
    ensures j == k
  {
    ReachableInv(s);
    CountSome(s.handles, j);
    CountSome(s.handles, k);
    assert EntryInOrder(s, s.handles[j].entry) && EntryInOrder(s, s.handles[k].entry);
    if j < k {
      CountTwo(s.handles, j, k);
    } else if k < j {
      CountTwo(s.handles, k, j);
    }
  }

  lemma OtherCallsKeepDone(s: State, op: Op, e: nat)
    requires Closed(s) && e < |s.entries| && !op.DoFinish?
    ensures e < |Step(s, op).entries| && Step(s, op).entries[e].done == s.entries[e].done
  {
  }

  lemma FinishSetsDone(s: State, h: nat, e: nat)
    requires Inv(s) && h < |s.handles| && e < |s.entries|
    ensures e < |Finish(s, h).entries|
    ensures Finish(s, h).entries[e].done <==> s.entries[e].done || (Open(s.handles[h], e) && Holders(s.handles, e) == 1)
  {
    hide Holders, Mains;
    assert EntryInOrder(s, e);
    if Open(s.handles[h], e) {
      CountSome(s.handles, h);
    }
  }

  /** `done` of an execution resolves in exactly one kind of step: its only open handle finishes. It
      stays resolved from then on. */
  lemma DoneAtLastFinish(s: State, op: Op, e: nat)
    requires Reachable(s) && Closed(s) && e < |s.entries|
    ensures var t := Step(s, op);
      && e < |t.entries|
      && (t.entries[e].done <==>
            || s.entries[e].done
            || (op.DoFinish? && op.handle < |s.handles| && Open(s.handles[op.handle], e) && Holders(s.handles, e) == 1))
  {
    ReachableInv(s);
    if !op.DoFinish? {
      OtherCallsKeepDone(s, op, e);
    } else if op.handle < |s.handles| {
      FinishSetsDone(s, op.handle, e);
    }
  }

  /** Once shutdown has started it stays started, no run enters the map any more, every mapped execution
      is aborted, and no main registration ever succeeds. */
  lemma {:induction false} ShutdownIsFinal(s: State, ops: seq<Op>, runId: string)
    requires Inv(s) && s.shuttingDown
    ensures var t := Run(s, ops);
      && Inv(t) && t.shuttingDown
      && t.active.Keys <= s.active.Keys
      && (forall r :: r in t.active ==> t.entries[t.active[r]].aborted)
      && Register(t, runId).Err?
  {
    RunKeepsInv(s, ops);
    if ops != [] {
      ShutdownIsFinal(s, ops[..|ops| - 1], runId);
      StepShrinksAfterShutdown(Run(s, ops[..|ops| - 1]), ops[|ops| - 1]);
    }
  }

  lemma StepShrinksAfterShutdown(s: State, op: Op)
    requires Inv(s) && s.shuttingDown
    ensures Step(s, op).shuttingDown && Step(s, op).active.Keys <= s.active.Keys
  {
    match op
    case DoRegister(runId) => assert Register(s, runId).Err?;
    case DoFinish(h) => if h < |s.handles| { assert Finish(s, h).active.Keys <= s.active.Keys; }
    case _ =>
  }

  /** `waitForAllRunExecutions` is over exactly when every handle ever given out has been finished. */
  lemma IdleIffAllFinished(s: State)
    requires Reachable(s)
    ensures Inv(s)
    ensures s.active == map[] <==> forall h :: 0 <= h < |s.handles| ==> s.handles[h].finished
  {
    ReachableInv(s);
    if s.active != map[] {
      var r :| r in s.active;
      MappedIffHeld(s, r);
    }
    if h: nat :| h < |s.handles| && !s.handles[h].finished {
      MappedIffHeld(s, s.entries[s.handles[h].entry].runId);
    }
  }

  // ----- When a holder joins, and whom an abort reaches -----

  /** An unfinished handle of the execution, or of the run. */
  predicate Held(s: State, e: nat) {
    exists h :: 0 <= h < |s.handles| && Open(s.handles[h], e)
  }

  predicate RunHeld(s: State, runId: string)
    requires Closed(s)
  {
    exists h :: 0 <= h < |s.handles| && !s.handles[h].finished && s.entries[s.handles[h].entry].runId == runId
  }

  /** The main executor of the run has not finished. */
  predicate MainHeld(s: State, runId: string)
    requires Closed(s)
  {
    exists h :: 0 <= h < |s.handles| && !s.handles[h].finished && s.handles[h].main
      && s.entries[s.handles[h].entry].runId == runId
  }

  /** A held execution of the run was aborted. */
  predicate RunAborted(s: State, runId: string)
    requires Closed(s)
  {
    exists h :: 0 <= h < |s.handles| && !s.handles[h].finished && s.entries[s.handles[h].entry].runId == runId
      && s.entries[s.handles[h].entry].aborted
  }

  lemma HeldIsMapped(s: State, e: nat)
    requires Inv(s) && e < |s.entries|
    ensures Held(s, e) <==> IsActive(s, e)
  {
    hide Mains;
    assert EntryInOrder(s, e);
    if Held(s, e) {
      var h: nat :| h < |s.handles| && Open(s.handles[h], e);
      CountSome(s.handles, h);
    }
    if IsActive(s, e) {
      SomeoneHolds(s.handles, e);
    }
  }

  /** All open handles of a run hold the execution that the map names. */
  lemma OneExecution(s: State, h: nat)
    requires Inv(s) && h < |s.handles| && !s.handles[h].finished
    ensures var runId := s.entries[s.handles[h].entry].runId;
      runId in s.active && s.active[runId] == s.handles[h].entry
  {
    hide Mains;
    HeldIsMapped(s, s.handles[h].entry);
    assert Open(s.handles[h], s.handles[h].entry);
  }

  lemma {:induction false} SomeMain(hs: seq<Handle>, e: nat)
    requires Mains(hs, e) > 0
    ensures exists h :: 0 <= h < |hs| && Open(hs[h], e) && hs[h].main
  {
    var n := |hs| - 1;
    if Open(hs[n], e) && hs[n].main {
    } else {
      SomeMain(hs[..n], e);
      var h :| 0 <= h < n && Open(hs[..n][h], e) && hs[..n][h].main;
      assert Open(hs[h], e) && hs[h].main;
    }
  }

  lemma HeldRunIsMapped(s: State, runId: string)
    requires Inv(s)
    ensures RunHeld(s, runId) <==> runId in s.active
  {
    hide EntryInOrder;
    if h: nat :| h < |s.handles| && !s.handles[h].finished && s.entries[s.handles[h].entry].runId == runId {
      OneExecution(s, h);
    }
    if runId in s.active {
      HeldIsMapped(s, s.active[runId]);
    }
  }

  lemma MainIsCounted(s: State, runId: string)
    requires Inv(s) && runId in s.active
    ensures MainHeld(s, runId) <==> s.entries[s.active[runId]].mainActive
  {
    hide Holders;
    var e := s.active[runId];
    assert EntryInOrder(s, e);
    if h: nat :| h < |s.handles| && !s.handles[h].finished && s.handles[h].main
                 && s.entries[s.handles[h].entry].runId == runId {
      OneExecution(s, h);
      CountSome(s.handles, h);
    }
    if s.entries[e].mainActive {
      SomeMain(s.handles, e);
    }
  }

  lemma AbortIsMapped(s: State, runId: string)
    requires Inv(s) && runId in s.active
    ensures RunAborted(s, runId) <==> s.entries[s.active[runId]].aborted
  {
    hide EntryInOrder;
    HeldIsMapped(s, s.active[runId]);
    if h: nat :| h < |s.handles| && !s.handles[h].finished && s.entries[s.handles[h].entry].runId == runId
                 && s.entries[s.handles[h].entry].aborted {
      OneExecution(s, h);
    }
    if s.entries[s.active[runId]].aborted {
      var h: nat :| h < |s.handles| && Open(s.handles[h], s.active[runId]);
      assert s.entries[s.handles[h].entry].runId == runId;
    }
  }

  lemma AcceptingStep(s: State, op: Op)
    requires Closed(s)
    ensures Step(s, op).accepting <==> s.accepting && op != DoShutdown
  {
  }

  /** Registration is open exactly as long as shutdown was not called. */
  lemma {:induction false} AcceptsUntilShutdown(ops: seq<Op>)
    ensures Run(INITIAL, ops).accepting <==> DoShutdown !in ops
  {
    hide Step;
    if ops != [] {
      var init, op := ops[..|ops| - 1], ops[|ops| - 1];
      AcceptsUntilShutdown(init);
      AcceptingStep(Run(INITIAL, init), op);
      assert ops == init + [op];
    }
  }

  function Refusal(s: State, runId: string): Error
    requires Closed(s)
  {
    if MainHeld(s, runId) then AlreadyActive else if RunAborted(s, runId) then Canceled else ShuttingDown
  }

  /** After any calls: a main executor of a run that somebody holds is refused exactly when the run still
      has one, or was aborted; of any other run, when shutdown was called. A further holder is refused
      exactly when nobody holds the run. */
  lemma RegistersExactly(ops: seq<Op>, runId: string)
    ensures var s := Run(INITIAL, ops);
      && (Register(s, runId).Err? <==>
            if RunHeld(s, runId) then MainHeld(s, runId) || RunAborted(s, runId) else DoShutdown in ops)
      && (Register(s, runId).Err? ==> Register(s, runId).error == Refusal(s, runId))
      && (Retain(s, runId).Err? <==> !RunHeld(s, runId))
  {
    hide Inv;
    var s := Run(INITIAL, ops);
    RunKeepsInvFromStart(ops);
    AcceptsUntilShutdown(ops);
    HeldRunIsMapped(s, runId);
    if runId in s.active {
      MainIsCounted(s, runId);
      AbortIsMapped(s, runId);
    } else {
      assert !MainHeld(s, runId) && !RunAborted(s, runId);
    }
  }

  lemma RunKeepsInvFromStart(ops: seq<Op>)
    ensures Inv(Run(INITIAL, ops))
  {
    RunKeepsInv(INITIAL, ops);
  }

  /** A registration gives its caller an unfinished main handle on an execution of the run, a new one
      exactly when nobody held the run. */
  lemma RegistrationHolds(ops: seq<Op>, runId: string)
    requires Register(Run(INITIAL, ops), runId).Ok?
    ensures var s, t := Run(INITIAL, ops), Register(Run(INITIAL, ops), runId).value;
      && |t.handles| == |s.handles| + 1 && t.handles[..|s.handles|] == s.handles
      && var h := t.handles[|s.handles|];
      && h.main && !h.finished && h.entry < |t.entries| && t.entries[h.entry].runId == runId
      && (h.entry < |s.entries| <==> RunHeld(s, runId))
      && (h.entry < |s.entries| ==> Held(s, h.entry))
  {
    hide EntryInOrder;
    var s := Run(INITIAL, ops);
    RunKeepsInvFromStart(ops);
    HeldRunIsMapped(s, runId);
    if runId in s.active {
      HeldIsMapped(s, s.active[runId]);
    }
  }

  /** A further holder gets an unfinished handle, no main one, on the execution that is held. */
  lemma RetentionHolds(ops: seq<Op>, runId: string)
    requires Retain(Run(INITIAL, ops), runId).Ok?
    ensures var s, t := Run(INITIAL, ops), Retain(Run(INITIAL, ops), runId).value;
      && |t.handles| == |s.handles| + 1 && t.handles[..|s.handles|] == s.handles
      && var h := t.handles[|s.handles|];
      && !h.main && !h.finished && h.entry < |s.entries| && s.entries[h.entry].runId == runId && Held(s, h.entry)
  {
    hide EntryInOrder;
    var s := Run(INITIAL, ops);
    RunKeepsInvFromStart(ops);
    HeldIsMapped(s, s.active[runId]);
  }

  predicate AbortsEntry(op: Op, entry: Entry) {
    match op
    case DoAbort(runId) => runId == entry.runId
    case DoAbortThreads(threadIds) => OnThread(entry.threadId, threadIds)
    case DoShutdown => true
    case _ => false
  }

  lemma OtherCallsKeepAborted(s: State, op: Op, e: nat)
    requires Closed(s) && e < |s.entries| && !op.DoAbort? && !op.DoAbortThreads? && !op.DoShutdown?
    ensures e < |Step(s, op).entries| && Step(s, op).entries[e].runId == s.entries[e].runId
    ensures Step(s, op).entries[e].aborted == s.entries[e].aborted
  {
    hide IsActive, OnThread;
  }

  /** An execution is aborted by exactly the calls that name its run or a thread it is bound to, and by
      shutdown, made while somebody holds it; it stays aborted. */
  lemma AbortedExactly(s: State, op: Op, e: nat)
    requires Inv(s) && e < |s.entries|
    ensures e < |Step(s, op).entries| && Step(s, op).entries[e].runId == s.entries[e].runId
    ensures Step(s, op).entries[e].aborted <==> s.entries[e].aborted || (Held(s, e) && AbortsEntry(op, s.entries[e]))
  {
    hide EntryInOrder, Held, OnThread;
    HeldIsMapped(s, e);
    if !op.DoAbort? && !op.DoAbortThreads? && !op.DoShutdown? {
      OtherCallsKeepAborted(s, op, e);
    } else {
      hide Finish, Register, Retain, BindThread;
    }
  }

  /** A binding to a thread is never lost or changed. */
  lemma BindingStays(s: State, op: Op, e: nat, threadId: string)
    requires Closed(s) && e < |s.entries| && s.entries[e].threadId == Some(threadId) && threadId != ""
    ensures e < |Step(s, op).entries| && Step(s, op).entries[e].threadId == Some(threadId)
  {
  }

  lemma {:induction false} StaysBoundAndAborted(s: State, ops: seq<Op>, e: nat, threadId: string)
    requires Inv(s) && e < |s.entries| && s.entries[e].threadId == Some(threadId) && threadId != ""
    ensures Inv(Run(s, ops)) && e < |Run(s, ops).entries|
    ensures Run(s, ops).entries[e].threadId == Some(threadId)
    ensures s.entries[e].aborted ==> Run(s, ops).entries[e].aborted
  {
    hide EntryInOrder, Step;
    RunKeepsInv(s, ops);
    if ops != [] {
      var init, op := ops[..|ops| - 1], ops[|ops| - 1];
      StaysBoundAndAborted(s, init, e, threadId);
      BindingStays(Run(s, init), op, e, threadId);
      AbortedExactly(Run(s, init), op, e);
    }
  }

  lemma BindTakes(s: State, h: nat, threadId: string)
    requires Inv(s) && h < |s.handles| && s.entries[s.handles[h].entry].threadId in {None, Some(""), Some(threadId)}
    ensures var t := Step(s, DoBindThread(h, threadId));
      Inv(t) && s.handles[h].entry < |t.entries| && t.entries[s.handles[h].entry].threadId == Some(threadId)
  {
    hide EntryInOrder;
    StepKeepsInv(s, DoBindThread(h, threadId));
  }

  /** Once an execution that is not bound to another thread is bound to a thread, an abort of that thread
      reaches it in every continuation, as long as somebody holds it by then, and it stays aborted. */
  lemma BoundIsHit(s: State, h: nat, threadId: string, before: seq<Op>, threadIds: set<string>, after: seq<Op>)
    requires Inv(s) && h < |s.handles| && s.entries[s.handles[h].entry].threadId in {None, Some(""), Some(threadId)}
    requires threadId != "" && threadId in threadIds
    requires Held(Run(Step(s, DoBindThread(h, threadId)), before), s.handles[h].entry)
    ensures var t := Run(Step(Run(Step(s, DoBindThread(h, threadId)), before), DoAbortThreads(threadIds)), after);
      s.handles[h].entry < |t.entries| && t.entries[s.handles[h].entry].aborted
  {
    hide EntryInOrder, Step, Run, Held;
    var e := s.handles[h].entry;
    var bound := Step(s, DoBindThread(h, threadId));
    BindTakes(s, h, threadId);
    StaysBoundAndAborted(bound, before, e, threadId);
    var met := Run(bound, before);
    AbortedExactly(met, DoAbortThreads(threadIds), e);
    BindingStays(met, DoAbortThreads(threadIds), e, threadId);
    StepKeepsInv(met, DoAbortThreads(threadIds));
    StaysBoundAndAborted(Step(met, DoAbortThreads(threadIds)), after, e, threadId);
  }

  // ----- The module as it runs: shared objects, updated in place -----

  /** The first half of `Finish`: the handle is closed and the entry has one holder less. */
  function Left(s: State, h: nat): State
    requires Closed(s) && h < |s.handles|
  {
    var handle := s.handles[h];
    var entry := s.entries[handle.entry];
    s.(handles := s.handles[h := handle.(finished := true)],
       entries := s.entries[handle.entry :=
         entry.(mainActive := entry.mainActive && !handle.main, holders := entry.holders - 1)])
  }

  lemma FinishInTwo(s: State, h: nat)
    requires Closed(s) && h < |s.handles| && !s.handles[h].finished
    ensures var e := s.handles[h].entry;
      var t := Left(s, h);
      var left := t.entries[e];
      Finish(s, h) ==
        if left.holders <= 0 && left.runId in t.active && t.active[left.runId] == e
        then t.(active := t.active - {left.runId}, entries := t.entries[e := left.(done := true)])
        else t
  {
  }

  class ActiveRun {
    ghost const number: nat
    const runId: string
    var aborted: bool
    var done: bool
    var threadId: Option<string>
    var holders: int
    var mainActive: bool

    constructor (runId: string, ghost number: nat)
      ensures this.number == number && View() == Entry(runId, false, false, None, 0, false)
    {
      this.number, this.runId := number, runId;
      aborted, done, threadId, holders, mainActive := false, false, None, 0, false;
    }

    ghost function View(): Entry
      reads this
    {
      Entry(runId, aborted, done, threadId, holders, mainActive)
    }
  }

  class Registration {
    const entry: ActiveRun
    const main: bool
    var finished: bool

    constructor (entry: ActiveRun, main: bool)
      ensures this.entry == entry && this.main == main && !finished
    {
      this.entry, this.main, this.finished := entry, main, false;
    }

    ghost function View(): Handle
      reads this
    {
      Handle(entry.number, main, finished)
    }
  }

  class Executions {
    var active: map<string, ActiveRun>
    var accepting: bool
    var shuttingDown: bool
    ghost var table: seq<ActiveRun>
    ghost var handles: seq<Registration>

    ghost predicate Valid()
      reads this, table
    {
      && (forall i :: 0 <= i < |table| ==> table[i].number == i)
      && (forall r :: r in active ==> Listed(active[r]))
      && (forall h :: 0 <= h < |handles| ==> Listed(handles[h].entry))
      && (forall i, j :: 0 <= i < j < |handles| ==> handles[i] != handles[j])
    }

    ghost predicate Listed(e: ActiveRun)
      reads this
    {
      e.number < |table| && table[e.number] == e
    }

    /** The abstract state: objects become their numbers in the ghost tables. */
    ghost function View(): (s: State)
      requires Valid()
      reads this, table, handles
      ensures Closed(s)
    {
      State(map r | r in active :: active[r].number,
            seq(|table|, i requires 0 <= i < |table| reads this, table => table[i].View()),
            seq(|handles|, i requires 0 <= i < |handles| reads this, handles => handles[i].View()),
            accepting, shuttingDown)
    }

    constructor ()
      ensures Valid() && View() == INITIAL
      ensures fresh(table) && fresh(handles)
    {
      active, accepting, shuttingDown := map[], true, false;
      table, handles := [], [];
    }

    lemma Looked(entry: ActiveRun)
      requires Valid() && Listed(entry)
      ensures entry.number < |View().entries| && View().entries[entry.number] == entry.View()
    {
    }

    lemma ActiveEntry(runId: string)
      requires Valid()
      ensures runId in View().active <==> runId in active
      ensures runId in active ==>
        Listed(active[runId]) && View().active[runId] == active[runId].number < |View().entries|
        && View().entries[View().active[runId]] == active[runId].View()
    {
    }

    /** Counts one more holder. */
    method Hold(entry: ActiveRun, main: bool)
      requires Valid() && Listed(entry)
      modifies entry`mainActive, entry`holders
      ensures Valid()
      ensures View() == old(View()).(entries := old(View()).entries[entry.number :=
                old(entry.View()).(mainActive := old(entry.mainActive) || main, holders := old(entry.holders) + 1)])
    {
      ghost var spec := View().entries[entry.number :=
        entry.View().(mainActive := entry.mainActive || main, holders := entry.holders + 1)];
      if main {
        entry.mainActive := true;
      }
      entry.holders := entry.holders + 1;
      assert View().entries == spec;
    }

    /** Makes a handle for a holder of the entry. */
    method Issue(entry: ActiveRun, main: bool) returns (h: Registration)
      requires Valid() && Listed(entry)
      modifies this`handles
      ensures Valid() && fresh(h) && handles == old(handles) + [h]
      ensures View() == old(View()).(handles := old(View()).handles + [Handle(entry.number, main, false)])
    {
      ghost var spec := View().handles + [Handle(entry.number, main, false)];
      h := new Registration(entry, main);
      handles := handles + [h];
      assert View().handles == spec;
    }

    /** A new execution, not in the map yet. */
    method Create(runId: string) returns (entry: ActiveRun)
      requires Valid()
      modifies this`table
      ensures Valid() && Listed(entry) && fresh(entry) && entry.runId == runId && entry.number == |old(table)|
      ensures View() == old(View()).(entries := old(View()).entries + [Entry(runId, false, false, None, 0, false)])
    {
      ghost var before := View();
      entry := new ActiveRun(runId, |table|);
      table := table + [entry];
      assert View().entries == before.entries + [Entry(runId, false, false, None, 0, false)];
      assert View().active == before.active && View().handles == before.handles;
    }

    /** The execution goes into the map. */
    method Enlist(entry: ActiveRun)
      requires Valid() && Listed(entry)
      modifies this`active
      ensures Valid()
      ensures View() == old(View()).(active := old(View()).active[entry.runId := entry.number])
    {
      ghost var before := View();
      active := active[entry.runId := entry];
      assert View().active == before.active[entry.runId := entry.number];
      assert View().entries == before.entries && View().handles == before.handles;
    }

    method JoinEntry(entry: ActiveRun, main: bool) returns (r: Result<Registration, Error>)
      requires Valid() && Listed(entry)
      modifies this`handles, entry
      ensures Valid()
      ensures View() == OrSame(old(View()), Join(old(View()), entry.number, main))
      ensures r.Ok? <==> Join(old(View()), entry.number, main).Ok?
      ensures r.Err? ==> r.error == Join(old(View()), entry.number, main).error
      ensures r.Ok? ==> fresh(r.value) && handles == old(handles) + [r.value]
      ensures r.Err? ==> handles == old(handles)
    {
      hide Valid, View;
      Looked(entry);
      if main {
        if entry.mainActive {
          return Err(AlreadyActive);
        }
        if entry.aborted {
          return Err(Canceled);
        }
      }
      Hold(entry, main);
      var h := Issue(entry, main);
      r := Ok(h);
    }

    method RegisterRun(runId: string) returns (r: Result<Registration, Error>)
      requires Valid()
      modifies this, table
      ensures Valid()
      ensures View() == OrSame(old(View()), Register(old(View()), runId))
      ensures r.Ok? <==> Register(old(View()), runId).Ok?
      ensures r.Err? ==> r.error == Register(old(View()), runId).error
    {
      hide Valid;
      ActiveEntry(runId);
      if runId in active {
        r := JoinEntry(active[runId], true);
        return;
      }
      if !accepting {
        return Err(ShuttingDown);
      }
      var entry := Create(runId);
      Enlist(entry);
      r := JoinEntry(entry, true);
    }

    method RetainRun(runId: string) returns (r: Result<Registration, Error>)
      requires Valid()
      modifies this, table
      ensures Valid()
      ensures View() == OrSame(old(View()), Retain(old(View()), runId))
      ensures r.Ok? <==> Retain(old(View()), runId).Ok?
    {
      if runId in active {
        r := JoinEntry(active[runId], false);
      } else {
        r := Err(NoExecution);
      }
    }

    /** A holder gives up its place in the entry. */
    method LeaveEntry(h: Registration, ghost k: nat)
      requires Valid() && k < |handles| && handles[k] == h && !h.finished
      modifies h`finished, h.entry`mainActive, h.entry`holders
      ensures Valid()
      ensures View() == Left(old(View()), k)
    {
      ghost var spec := Left(View(), k);
      h.finished := true;
      if h.main {
        h.entry.mainActive := false;
      }
      h.entry.holders := h.entry.holders - 1;
      assert View().entries == spec.entries;
      assert View().handles == spec.handles;
    }

    /** The last holder is gone: the entry leaves the map and resolves `done`. */
    method Resolve(entry: ActiveRun)
      requires Valid() && Listed(entry) && entry.runId in active && active[entry.runId] == entry
      modifies this`active, entry`done
      ensures Valid()
      ensures View() == old(View()).(active := old(View()).active - {entry.runId},
                                     entries := old(View()).entries[entry.number := old(entry.View()).(done := true)])
    {
      ghost var spec := View().entries[entry.number := entry.View().(done := true)];
      active := active - {entry.runId};
      entry.done := true;
      assert View().entries == spec;
    }

    method FinishHandle(h: Registration, ghost k: nat)
      requires Valid() && k < |handles| && handles[k] == h
      modifies this, h, h.entry
      ensures Valid()
      ensures View() == Finish(old(View()), k)
    {
      if h.finished {
        return;
      }
      ghost var before := View();
      LeaveEntry(h, k);
      FinishInTwo(before, k);
      var entry := h.entry;
      if entry.holders <= 0 && entry.runId in active && active[entry.runId] == entry {
        Resolve(entry);
      }
    }

    method BindRunThread(h: Registration, threadId: string, ghost k: nat) returns (r: Result<(), Error>)
      requires Valid() && k < |handles| && handles[k] == h
      modifies h.entry
      ensures Valid()
      ensures View() == OrSame(old(View()), BindThread(old(View()), k, threadId))
      ensures r.Ok? <==> BindThread(old(View()), k, threadId).Ok?
    {
      var entry := h.entry;
      if entry.threadId.Some? && entry.threadId.value != "" && entry.threadId.value != threadId {
        return Err(OtherThread);
      }
      entry.threadId := Some(threadId);
      r := Ok(());
      assert View().entries == BindThread(old(View()), k, threadId).value.entries;
    }

    method AbortAllMapped()
      requires Valid()
      modifies table`aborted
      ensures Valid() && View() == AbortMapped(old(View()))
    {
      hide Abort, AbortIds, Valid, View;
      ghost var start := View();
      AbortNone(start);
      forall r ensures r in active <==> r in start.active {
        ActiveEntry(r);
      }
      var todo := active.Keys;
      assert active.Keys - todo == {};
      while todo != {}
        invariant todo <= active.Keys && Valid()
        invariant View() == AbortIds(start, active.Keys - todo)
        decreases todo
      {
        var r :| r in todo;
        AbortOneMore(start, active.Keys - todo, r);
        assert active.Keys - (todo - {r}) == active.Keys - todo + {r};
        var found := AbortRun(r);
        todo := todo - {r};
      }
      assert active.Keys - todo == active.Keys;
      AbortAll(start, active.Keys, (e: Entry) => true);
    }

    /** Stops new runs and aborts the mapped ones, one after the other. */
    method StopAcceptingNewRuns()
      requires Valid()
      modifies this`accepting, this`shuttingDown, table`aborted
      ensures Valid()
      ensures View() == Shutdown(old(View()))
    {
      accepting := false;
      shuttingDown := true;
      hide AbortMapped;
      AbortAllMapped();
    }

    /** Aborts the mapped executions of some threads and names their runs. */
    method AbortThreadExecutions(threadIds: set<string>) returns (runIds: set<string>)
      requires Valid()
      modifies table`aborted
      ensures Valid()
      ensures View() == AbortThreads(old(View()), threadIds)
      ensures forall r :: r in runIds <==> r in active && OnThread(active[r].threadId, threadIds)
    {
      hide Abort, AbortIds, Valid, View, OnThread;
      ghost var start := View();
      AbortNone(start);
      forall r ensures r in active <==> r in start.active
               ensures r in active ==> start.active[r] < |start.entries|
                                       && start.entries[start.active[r]].threadId == active[r].threadId {
        ActiveEntry(r);
      }
      runIds := {};
      var todo := active.Keys;
      while todo != {}
        invariant todo <= active.Keys && Valid()
        invariant forall r :: r in runIds <==> r in active && r !in todo && OnThread(active[r].threadId, threadIds)
        invariant View() == AbortIds(start, runIds)
        decreases todo
      {
        var r :| r in todo;
        todo := todo - {r};
        var threadId := active[r].threadId;
        if OnThread(threadId, threadIds) {
          AbortOneMore(start, runIds, r);
          var found := AbortRun(r);
          runIds := runIds + {r};
        }
      }
      AbortAll(start, runIds, (e: Entry) => OnThread(e.threadId, threadIds));
    }

    method AbortRun(runId: string) returns (found: bool)
      requires Valid()
      modifies table`aborted
      ensures Valid() && found == (runId in active)
      ensures View() == Abort(old(View()), runId)
    {
      found := runId in active;
      if found {
        ghost var spec := Abort(View(), runId);
        var entry := active[runId];
        entry.aborted := true;
        assert View().entries == spec.entries;
      }
    }
  }
}
