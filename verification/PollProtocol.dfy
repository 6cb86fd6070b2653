/** Sub-task workers and the pollers that wait for them, one atomic step between two suspension points.
    A wait is what `RunActivity.Waiters` keeps: its run ids, and whether it is still registered. */
module PollProtocol {
  import opened Wrappers

  datatype Status = Running | Done | Failed

  datatype Row = Row(parent: string, status: Status)

  /** A worker's life: its row exists, it is in the table of active workers, it has left that table. */
  datatype Stage = Created | Working | Gone

  datatype Worker = Worker(parent: string, stage: Stage)

  datatype Wait = Wait(ids: set<string>, live: bool)

  /** Where a poller is suspended, and on which wait; a closed one reports the status it saw. */
  datatype Phase =
    | Reading(wait: nat)
    | Got(wait: nat, read: Option<Status>)
    | Checking(wait: nat)
    | Parked(wait: nat)
    | Closing(wait: nat)
    | Rereading(wait: nat)
    | Closed(report: Option<Status>)

  datatype Poller = Poller(run: string, row: string, parent: string, phase: Phase)

  datatype State = State(rows: map<string, Row>, workers: map<string, Worker>, active: set<string>,
                         waits: seq<Wait>, pollers: seq<Poller>)

  const INITIAL := State(map[], map[], {}, [], [])

  datatype Op =
    | CreateRow(row: string, parent: string)
    | StartWorker(row: string)
    | WriteStatus(row: string, status: Status)
    | EndWorker(row: string)
    | DeleteRow(row: string)
    | Notify(run: string)
    | BeginPoll(run: string, row: string)
    | ReadRow(poller: nat)
    | Resume(poller: nat)
    | ReturnForInput(poller: nat)
    | Park(poller: nat)
    | Wake(poller: nat)
    | CloseOrphan(poller: nat)
    | Reread(poller: nat)
    | Cancel(poller: nat)

  // ----- The steps -----

  /** `finishSubagentRun`: only a row that is still running gets the status. */
  function Finished(rows: map<string, Row>, row: string, status: Status): map<string, Row> {
    if row in rows && rows[row].status == Running then rows[row := rows[row].(status := status)] else rows
  }

  function StatusOf(s: State, row: string): Option<Status> {
    if row in s.rows then Some(s.rows[row].status) else None
  }

  function NotifyWait(w: Wait, run: string): Wait {
    w.(live := w.live && run !in w.ids)
  }

  function NotifyAll(waits: seq<Wait>, run: string): (r: seq<Wait>)
    ensures |r| == |waits|
    ensures forall k :: 0 <= k < |waits| ==> r[k] == NotifyWait(waits[k], run)
  {
    seq(|waits|, k requires 0 <= k < |waits| => NotifyWait(waits[k], run))
  }

  function Disposed(waits: seq<Wait>, w: nat): seq<Wait> {
    if w < |waits| then waits[w := waits[w].(live := false)] else waits
  }

  function Enters(s: State, p: nat, phase: Phase): State
    requires p < |s.pollers|
  {
    s.(pollers := s.pollers[p := s.pollers[p].(phase := phase)])
  }

  /** The `finally` of one round: the wait is disposed and the poller returns. */
  function Closes(s: State, p: nat, w: nat, report: Option<Status>): State
    requires p < |s.pollers|
  {
    Enters(s, p, Closed(report)).(waits := Disposed(s.waits, w))
  }

  /** The poller resumes with the row it read: gone or terminal ends the poll, no worker closes the
      orphan, and otherwise the poll goes on to look for new input. */
  function Resumed(s: State, p: nat): State
    requires p < |s.pollers| && s.pollers[p].phase.Got?
  {
    var w := s.pollers[p].phase.wait;
    var read := s.pollers[p].phase.read;
    if read != Some(Running) then Closes(s, p, w, read)
    else if s.pollers[p].row !in s.active then Enters(s, p, Closing(w))
    else Enters(s, p, Checking(w))
  }

  /** One own step of a poller; `ReturnForInput` and `Park` are the two outcomes of the input check. */
  function PollerStep(s: State, p: nat, op: Op): State
    requires p < |s.pollers|
  {
    var poller := s.pollers[p];
    match (op, poller.phase)
    case (ReadRow(_), Reading(w)) => Enters(s, p, Got(w, StatusOf(s, poller.row)))
    case (Resume(_), Got(_, _)) => Resumed(s, p)
    case (ReturnForInput(_), Checking(w)) => Closes(s, p, w, Some(Running))
    case (Park(_), Checking(w)) => Enters(s, p, Parked(w))
    case (Wake(_), Parked(w)) =>
      if w < |s.waits| && !s.waits[w].live
      then Enters(s, p, Reading(|s.waits|)).(waits := s.waits + [Wait({poller.run, poller.parent}, true)])
      else s
    case (CloseOrphan(_), Closing(w)) => Enters(s, p, Rereading(w)).(rows := Finished(s.rows, poller.row, Failed))
    case (Reread(_), Rereading(w)) => Closes(s, p, w, StatusOf(s, poller.row))
    case (Cancel(_), Closed(_)) => s
    case (Cancel(_), phase) => Closes(s, p, phase.wait, None)
    case (_, _) => s
  }

  predicate AtStage(s: State, row: string, stage: Stage) {
    row in s.workers && s.workers[row].stage == stage
  }

  /** The step is one of a poller's own. */
  predicate ByPoller(op: Op) {
    op.ReadRow? || op.Resume? || op.ReturnForInput? || op.Park? || op.Wake? || op.CloseOrphan? || op.Reread? || op.Cancel?
  }

  /** Any step of the system; one that is not enabled changes nothing. */
  function Step(s: State, op: Op): State {
    match op
    case CreateRow(row, parent) =>
      if row in s.workers then s
      else s.(rows := s.rows[row := Row(parent, Running)], workers := s.workers[row := Worker(parent, Created)])
    case StartWorker(row) =>
      if !AtStage(s, row, Created) then s
      else s.(workers := s.workers[row := s.workers[row].(stage := Working)], active := s.active + {row})
    case WriteStatus(row, status) =>
      if AtStage(s, row, Working) && status != Running then s.(rows := Finished(s.rows, row, status)) else s
    case EndWorker(row) =>
      if !AtStage(s, row, Working) then s
      else s.(workers := s.workers[row := s.workers[row].(stage := Gone)], active := s.active - {row},
              waits := NotifyAll(s.waits, s.workers[row].parent))
    case DeleteRow(row) => s.(rows := s.rows - {row})
    case Notify(run) => s.(waits := NotifyAll(s.waits, run))
    case BeginPoll(run, row) =>
      if row !in s.rows then s
      else
        var parent := s.rows[row].parent;
        s.(pollers := s.pollers + [Poller(run, row, parent, Reading(|s.waits|))],
           waits := s.waits + [Wait({run, parent}, true)])
    case own => if own.poller < |s.pollers| then PollerStep(s, own.poller, own) else s
  }

  function Run(s: State, ops: seq<Op>): State {
    if ops == [] then s else Step(Run(s, ops[..|ops| - 1]), ops[|ops| - 1])
  }

  // ----- The invariant -----

  /** What a poller believes about its row still holds. */
  predicate Believes(s: State, row: string, read: Option<Status>) {
    read.Some? && read.value != Running && row in s.rows ==> s.rows[row].status == read.value
  }

  /** The poller's wait is registered under its own run and the row's parent run; past the check for a
      worker, a wait that is still live means the worker has not left. */
  predicate PollerInOrder(s: State, p: Poller) {
    && p.row in s.workers && s.workers[p.row].parent == p.parent
    && (!p.phase.Closed? ==> p.phase.wait < |s.waits| && s.waits[p.phase.wait].ids == {p.run, p.parent})
    && (p.phase.Checking? || p.phase.Parked? ==> (s.waits[p.phase.wait].live ==> p.row in s.active))
    && (p.phase.Got? ==> Believes(s, p.row, p.phase.read))
    && (p.phase.Closed? ==> Believes(s, p.row, p.phase.report))
    && (p.phase.Rereading? && p.row in s.rows ==> s.rows[p.row].status != Running)
  }

  ghost predicate Inv(s: State) {
    && (forall r :: r in s.rows ==> r in s.workers && s.workers[r].parent == s.rows[r].parent)
    && (forall r :: r in s.active <==> AtStage(s, r, Working))
    && (forall p :: 0 <= p < |s.pollers| ==> PollerInOrder(s, s.pollers[p]))
  }

  /** From `s` to `t`, nothing that a poller outside this step relies on is lost. */
  ghost predicate Keeps(s: State, t: State) {
    && (forall r :: r in s.workers ==> r in t.workers && t.workers[r].parent == s.workers[r].parent)
    && (forall r :: r in t.rows && r in s.workers ==>
          r in s.rows && (s.rows[r].status == Running || t.rows[r].status == s.rows[r].status))
    && |s.waits| <= |t.waits|
    && (forall w :: 0 <= w < |s.waits| ==> t.waits[w].ids == s.waits[w].ids && (t.waits[w].live ==> s.waits[w].live))
    && (forall r :: r in s.active && r !in t.active ==>
          && r in s.workers
          && forall w :: 0 <= w < |s.waits| && s.workers[r].parent in s.waits[w].ids ==> !t.waits[w].live)
  }

  lemma KeptInOrder(s: State, t: State, p: Poller)
    requires PollerInOrder(s, p) && Keeps(s, t)
    ensures PollerInOrder(t, p)
  {
  }

  lemma PollerStepKeeps(s: State, p: nat, op: Op)
    requires Inv(s) && p < |s.pollers|
    ensures Keeps(s, PollerStep(s, p, op))
  {
  }

  lemma StepKeeps(s: State, op: Op)
    requires Inv(s)
    ensures Keeps(s, Step(s, op))
  {
    hide PollerStep;
    if ByPoller(op) && op.poller < |s.pollers| {
      PollerStepKeeps(s, op.poller, op);
    }
  }

  /** The poller that moved is in order where it arrived. */
  lemma MovedInOrder(s: State, p: nat, op: Op)
    requires Inv(s) && p < |s.pollers|
    ensures var t := PollerStep(s, p, op);
      |t.pollers| == |s.pollers| && PollerInOrder(t, t.pollers[p]) &&
      forall q :: 0 <= q < |s.pollers| && q != p ==> t.pollers[q] == s.pollers[q]
  {
    assert PollerInOrder(s, s.pollers[p]);
  }

  /** A step moves the pollers' table in one place at most, or adds one that has just subscribed. */
  lemma StepPollers(s: State, op: Op, q: nat)
    requires Inv(s) && q < |Step(s, op).pollers|
    ensures var t := Step(s, op);
      || (q < |s.pollers| && t.pollers[q] == s.pollers[q])
      || PollerInOrder(t, t.pollers[q])
  {
    if q < |s.pollers| && Step(s, op).pollers[q] != s.pollers[q] {
      MovedInOrder(s, op.poller, op);
    }
  }

  /** What a poller's own step leaves alone. */
  lemma PollerStepFrame(s: State, p: nat, op: Op)
    requires p < |s.pollers|
    ensures var t := PollerStep(s, p, op);
      && t.workers == s.workers && t.active == s.active && |t.pollers| == |s.pollers|
      && (t.rows == s.rows || t.rows == Finished(s.rows, s.pollers[p].row, Failed))
      && t.pollers[p].row == s.pollers[p].row
      && forall q :: 0 <= q < |s.pollers| && q != p ==> t.pollers[q] == s.pollers[q]
  {
  }

  lemma TablesInOrder(s: State, op: Op)
    requires Inv(s)
    ensures var t := Step(s, op);
      && (forall r :: r in t.rows ==> r in t.workers && t.workers[r].parent == t.rows[r].parent)
      && (forall r :: r in t.active <==> AtStage(t, r, Working))
  {
    hide PollerStep, PollerInOrder;
    if ByPoller(op) && op.poller < |s.pollers| {
      PollerStepFrame(s, op.poller, op);
    }
  }

  lemma StepKeepsInv(s: State, op: Op)
    requires Inv(s)
    ensures Inv(Step(s, op))
  {
    hide Step, Keeps, PollerInOrder;
    var t := Step(s, op);
    StepKeeps(s, op);
    TablesInOrder(s, op);
    forall q | 0 <= q < |t.pollers| ensures PollerInOrder(t, t.pollers[q]) {
      StepPollers(s, op, q);
      if q < |s.pollers| && t.pollers[q] == s.pollers[q] {
        KeptInOrder(s, t, s.pollers[q]);
      }
    }
  }

  lemma {:induction false} RunKeepsInv(ops: seq<Op>)
    ensures Inv(Run(INITIAL, ops))
  {
    if ops != [] {
      RunKeepsInv(ops[..|ops| - 1]);
      StepKeepsInv(Run(INITIAL, ops[..|ops| - 1]), ops[|ops| - 1]);
    }
  }

  // ----- What holds in every run -----

  /** No lost wake-up: while a poller is parked on a wait nobody has woken, the worker of its row is
      still at work; once the worker has left, the poller can go on. */
  lemma NoLostWakeUp(ops: seq<Op>, p: nat)
    requires p < |Run(INITIAL, ops).pollers| && Run(INITIAL, ops).pollers[p].phase.Parked?
    ensures var s := Run(INITIAL, ops);
      && s.pollers[p].phase.wait < |s.waits|
      && (AtStage(s, s.pollers[p].row, Working) || !s.waits[s.pollers[p].phase.wait].live)
  {
    RunKeepsInv(ops);
    assert PollerInOrder(Run(INITIAL, ops), Run(INITIAL, ops).pollers[p]);
  }

  /** A report of a terminal status is the status of the row, as long as the row is there. */
  lemma ReportsAreTrue(ops: seq<Op>, p: nat)
    requires p < |Run(INITIAL, ops).pollers| && Run(INITIAL, ops).pollers[p].phase.Closed?
    ensures var s := Run(INITIAL, ops); Believes(s, s.pollers[p].row, s.pollers[p].phase.report)
  {
    RunKeepsInv(ops);
    assert PollerInOrder(Run(INITIAL, ops), Run(INITIAL, ops).pollers[p]);
  }

  /** A terminal status never changes, whatever happens later, except that the row may be deleted. */
  lemma {:induction false} TerminalIsFinal(ops: seq<Op>, more: seq<Op>, row: string)
    requires row in Run(INITIAL, ops).rows && Run(INITIAL, ops).rows[row].status != Running
    ensures var t := Run(INITIAL, ops + more);
      row in t.workers && (row in t.rows ==> t.rows[row].status == Run(INITIAL, ops).rows[row].status)
  {
    if more == [] {
      assert ops + more == ops;
      RunKeepsInv(ops);
    } else {
      var before := ops + more[..|more| - 1];
      assert (ops + more)[..|ops + more| - 1] == before;
      TerminalIsFinal(ops, more[..|more| - 1], row);
      RunKeepsInv(before);
      StepKeeps(Run(INITIAL, before), more[|more| - 1]);
    }
  }

  // ----- A poller returns once the worker has left -----

  /** How many own steps a poller has left when its row has no worker any more. */
  function Rank(phase: Phase): nat {
    match phase
    case Checking(_) => 6
    case Parked(_) => 5
    case Reading(_) => 4
    case Got(_, _) => 3
    case Closing(_) => 2
    case Rereading(_) => 1
    case Closed(_) => 0
  }

  /** The step that a suspended poller takes next; after the input check it is the one that waits. */
  function NextStep(phase: Phase, p: nat): Op {
    match phase
    case Checking(_) => Park(p)
    case Parked(_) => Wake(p)
    case Reading(_) => ReadRow(p)
    case Got(_, _) => Resume(p)
    case Closing(_) => CloseOrphan(p)
    case Rereading(_) => Reread(p)
    case Closed(_) => Cancel(p)
  }

  lemma OwnStepDescends(s: State, op: Op, p: nat)
    requires p < |s.pollers| && s.pollers[p].row !in s.active
    requires s.pollers[p].phase.Parked? ==>
      s.pollers[p].phase.wait < |s.waits| && !s.waits[s.pollers[p].phase.wait].live
    ensures Rank(PollerStep(s, p, op).pollers[p].phase) <= Rank(s.pollers[p].phase)
    ensures op == NextStep(s.pollers[p].phase, p) && !s.pollers[p].phase.Closed? ==>
      Rank(PollerStep(s, p, op).pollers[p].phase) < Rank(s.pollers[p].phase)
  {
  }

  /** Once the worker of a poller's row has left, it stays away, no step takes the poller further from
      its return, and each own step, always possible, takes it closer. */
  lemma RankDescends(s: State, op: Op, p: nat)
    requires Inv(s) && p < |s.pollers| && AtStage(s, s.pollers[p].row, Gone)
    ensures p < |Step(s, op).pollers| && AtStage(Step(s, op), s.pollers[p].row, Gone)
    ensures Step(s, op).pollers[p].row == s.pollers[p].row
    ensures Rank(Step(s, op).pollers[p].phase) <= Rank(s.pollers[p].phase)
    ensures op == NextStep(s.pollers[p].phase, p) && !s.pollers[p].phase.Closed? ==>
      Rank(Step(s, op).pollers[p].phase) < Rank(s.pollers[p].phase)
  {
    hide PollerStep;
    assert PollerInOrder(s, s.pollers[p]);
    if ByPoller(op) && op.poller < |s.pollers| {
      PollerStepFrame(s, op.poller, op);
      OwnStepDescends(s, op, p);
    }
  }

  /** How often, along a run, poller `p` takes its next step. */
  function OwnSteps(s: State, ops: seq<Op>, p: nat): nat {
    if ops == [] then 0
    else
      var before := Run(s, ops[..|ops| - 1]);
      OwnSteps(s, ops[..|ops| - 1], p) +
      (if p < |before.pollers| && ops[|ops| - 1] == NextStep(before.pollers[p].phase, p) then 1 else 0)
  }

  /** In whatever company, a poller whose row has no worker any more has returned after six of its own
      steps: it never parks again for good. */
  lemma {:induction false} PollerReturns(s: State, ops: seq<Op>, p: nat)
    requires Inv(s) && p < |s.pollers| && AtStage(s, s.pollers[p].row, Gone)
    ensures Inv(Run(s, ops)) && p < |Run(s, ops).pollers| && Run(s, ops).pollers[p].row == s.pollers[p].row
    ensures AtStage(Run(s, ops), s.pollers[p].row, Gone)
    ensures var phase := Run(s, ops).pollers[p].phase;
      !phase.Closed? ==> Rank(phase) + OwnSteps(s, ops, p) <= Rank(s.pollers[p].phase)
    ensures OwnSteps(s, ops, p) >= 6 ==> Run(s, ops).pollers[p].phase.Closed?
  {
    hide Step, Inv;
    if ops != [] {
      var before := Run(s, ops[..|ops| - 1]);
      PollerReturns(s, ops[..|ops| - 1], p);
      StepKeepsInv(before, ops[|ops| - 1]);
      RankDescends(before, ops[|ops| - 1], p);
    }
  }

  // ----- What a poller reports -----

  /** At step `k` the worker itself reports an outcome. */
  predicate Reports(ops: seq<Op>, k: nat, row: string) {
    && k < |ops| && ops[k].WriteStatus? && ops[k].row == row && ops[k].status != Running
    && AtStage(Run(INITIAL, ops[..k]), row, Working)
  }

  /** At step `k` poller `p` reads its row. */
  predicate Reads(ops: seq<Op>, k: nat, p: nat) {
    k < |ops| &&
    var s := Run(INITIAL, ops[..k]);
    && p < |s.pollers|
    && ((ops[k] == ReadRow(p) && s.pollers[p].phase.Reading?) || (ops[k] == Reread(p) && s.pollers[p].phase.Rereading?))
  }

  /** Poller `p` is cancelled at step `k`. */
  predicate IsCancelled(ops: seq<Op>, k: nat, p: nat) {
    k < |ops| && ops[k] == Cancel(p) &&
    var s := Run(INITIAL, ops[..k]);
    p < |s.pollers| && !s.pollers[p].phase.Closed?
  }

  /** Poller `p` returns for new input at step `k`. */
  predicate ReturnsForInput(ops: seq<Op>, k: nat, p: nat) {
    k < |ops| && ops[k] == ReturnForInput(p) &&
    var s := Run(INITIAL, ops[..k]);
    p < |s.pollers| && s.pollers[p].phase.Checking?
  }

  /** `k` is the last read of poller `p`, of the row `row`, and it found `status`. */
  predicate LastRead(ops: seq<Op>, k: nat, p: nat, row: string, status: Option<Status>) {
    && Reads(ops, k, p) && (forall j :: k < j < |ops| ==> !Reads(ops, j, p))
    && status == StatusOf(Run(INITIAL, ops[..k]), row)
  }

  ghost predicate HasRead(ops: seq<Op>, p: nat, row: string, status: Option<Status>) {
    exists k: nat :: LastRead(ops, k, p, row, status)
  }

  ghost predicate EverCancelled(ops: seq<Op>, p: nat) {
    exists k: nat :: IsCancelled(ops, k, p)
  }

  ghost predicate EverReturnedForInput(ops: seq<Op>, p: nat) {
    exists k: nat :: ReturnsForInput(ops, k, p)
  }

  /** What the run so far has left poller `p` with, by where it stands. */
  ghost predicate Remembers(ops: seq<Op>, p: nat)
    requires p < |Run(INITIAL, ops).pollers|
  {
    var poller := Run(INITIAL, ops).pollers[p];
    && (!poller.phase.Closed? ==> !EverCancelled(ops, p) && !EverReturnedForInput(ops, p))
    && match poller.phase
       case Got(_, read) => HasRead(ops, p, poller.row, read)
       case Checking(_) => HasRead(ops, p, poller.row, Some(Running))
       case Closed(report) => EverCancelled(ops, p) || Honest(ops, p, poller.row, report)
       case _ => true
  }

  /** The report is what the last read found, and still running only if the poller returned for input. */
  ghost predicate Honest(ops: seq<Op>, p: nat, row: string, report: Option<Status>) {
    HasRead(ops, p, row, report) && (report == Some(Running) <==> EverReturnedForInput(ops, p))
  }

  /** What a step before the last does is the same in the run without the last. */
  lemma SnocEarlier(ops: seq<Op>, op: Op, k: nat, p: nat)
    requires k < |ops|
    ensures Reads(ops + [op], k, p) <==> Reads(ops, k, p)
    ensures IsCancelled(ops + [op], k, p) <==> IsCancelled(ops, k, p)
    ensures ReturnsForInput(ops + [op], k, p) <==> ReturnsForInput(ops, k, p)
    ensures Run(INITIAL, (ops + [op])[..k]) == Run(INITIAL, ops[..k])
  {
    hide Run;
    assert (ops + [op])[..k] == ops[..k];
  }

  lemma SnocCancelled(ops: seq<Op>, op: Op, p: nat)
    ensures EverCancelled(ops + [op], p) <==> EverCancelled(ops, p) || IsCancelled(ops + [op], |ops|, p)
  {
    hide Run;
    if k: nat :| IsCancelled(ops, k, p) {
      SnocEarlier(ops, op, k, p);
    }
    if k: nat :| IsCancelled(ops + [op], k, p) && k < |ops| {
      SnocEarlier(ops, op, k, p);
    }
  }

  lemma SnocReturned(ops: seq<Op>, op: Op, p: nat)
    ensures EverReturnedForInput(ops + [op], p) <==> EverReturnedForInput(ops, p) || ReturnsForInput(ops + [op], |ops|, p)
  {
    hide Run;
    if k: nat :| ReturnsForInput(ops, k, p) {
      SnocEarlier(ops, op, k, p);
    }
    if k: nat :| ReturnsForInput(ops + [op], k, p) && k < |ops| {
      SnocEarlier(ops, op, k, p);
    }
  }

  lemma SnocLastRead(ops: seq<Op>, op: Op, k: nat, p: nat, row: string, status: Option<Status>)
    requires k < |ops| && !Reads(ops + [op], |ops|, p)
    ensures LastRead(ops + [op], k, p, row, status) <==> LastRead(ops, k, p, row, status)
  {
    hide Run, Reads;
    SnocEarlier(ops, op, k, p);
    forall j: nat | j < |ops| ensures Reads(ops + [op], j, p) <==> Reads(ops, j, p) {
      SnocEarlier(ops, op, j, p);
    }
  }

  lemma SnocReadsNow(ops: seq<Op>, op: Op, p: nat, row: string, status: Option<Status>)
    requires Reads(ops + [op], |ops|, p)
    ensures HasRead(ops + [op], p, row, status) <==> status == StatusOf(Run(INITIAL, ops), row)
  {
    hide Run, Reads;
    assert (ops + [op])[..|ops|] == ops;
    if k: nat :| LastRead(ops + [op], k, p, row, status) {
      ReadsInRun(ops + [op], k, p);
    }
    if status == StatusOf(Run(INITIAL, ops), row) {
      assert LastRead(ops + [op], |ops|, p, row, status);
    }
  }

  lemma ReadsInRun(ops: seq<Op>, k: nat, p: nat)
    requires Reads(ops, k, p)
    ensures k < |ops|
  {
  }

  lemma SnocReadsNot(ops: seq<Op>, op: Op, p: nat, row: string, status: Option<Status>)
    requires !Reads(ops + [op], |ops|, p)
    ensures HasRead(ops + [op], p, row, status) <==> HasRead(ops, p, row, status)
  {
    hide Run, Reads;
    if k: nat :| LastRead(ops + [op], k, p, row, status) {
      ReadsInRun(ops + [op], k, p);
      assert k < |ops|;
      SnocLastRead(ops, op, k, p, row, status);
    }
    if k: nat :| LastRead(ops, k, p, row, status) {
      ReadsInRun(ops, k, p);
      SnocLastRead(ops, op, k, p, row, status);
    }
  }

  lemma SnocReads(ops: seq<Op>, op: Op, p: nat, row: string, status: Option<Status>)
    ensures Reads(ops + [op], |ops|, p) ==>
      (HasRead(ops + [op], p, row, status) <==> status == StatusOf(Run(INITIAL, ops), row))
    ensures !Reads(ops + [op], |ops|, p) ==>
      (HasRead(ops + [op], p, row, status) <==> HasRead(ops, p, row, status))
  {
    hide Run, Reads, HasRead;
    if Reads(ops + [op], |ops|, p) {
      SnocReadsNow(ops, op, p, row, status);
    } else {
      SnocReadsNot(ops, op, p, row, status);
    }
  }

  /** A step of another poller, or of no poller, changes nothing about this one. */
  lemma OthersStep(ops: seq<Op>, op: Op, p: nat)
    requires p < |Run(INITIAL, ops).pollers| && !(ByPoller(op) && op.poller == p)
    ensures Step(Run(INITIAL, ops), op).pollers[p] == Run(INITIAL, ops).pollers[p]
    ensures !Reads(ops + [op], |ops|, p) && !IsCancelled(ops + [op], |ops|, p) && !ReturnsForInput(ops + [op], |ops|, p)
  {
    hide Run, PollerStep;
    if ByPoller(op) && op.poller < |Run(INITIAL, ops).pollers| {
      PollerStepFrame(Run(INITIAL, ops), op.poller, op);
    }
  }

  lemma OwnStep(ops: seq<Op>, op: Op, p: nat)
    requires p < |Run(INITIAL, ops).pollers| && ByPoller(op) && op.poller == p
    ensures (ops + [op])[..|ops|] == ops
    ensures var s := Run(INITIAL, ops);
      && (Reads(ops + [op], |ops|, p) <==>
            (op.ReadRow? && s.pollers[p].phase.Reading?) || (op.Reread? && s.pollers[p].phase.Rereading?))
      && (IsCancelled(ops + [op], |ops|, p) <==> op.Cancel? && !s.pollers[p].phase.Closed?)
      && (ReturnsForInput(ops + [op], |ops|, p) <==> op.ReturnForInput? && s.pollers[p].phase.Checking?)
  {
    hide Run;
    assert (ops + [op])[..|ops|] == ops;
  }

  /** Nothing has happened to a poller that is not there yet. */
  lemma {:induction false} NotYet(ops: seq<Op>, p: nat)
    requires p >= |Run(INITIAL, ops).pollers|
    ensures !EverCancelled(ops, p) && !EverReturnedForInput(ops, p)
  {
    hide Step, EverCancelled, EverReturnedForInput;
    if ops == [] {
      NothingHappened(p);
    } else {
      var init, op := ops[..|ops| - 1], ops[|ops| - 1];
      assert ops == init + [op];
      PollersStay(Run(INITIAL, init), op);
      NotYet(init, p);
      SnocCancelled(init, op, p);
      SnocReturned(init, op, p);
    }
  }

  lemma NothingHappened(p: nat)
    ensures !EverCancelled([], p) && !EverReturnedForInput([], p)
  {
  }

  lemma PollersStay(s: State, op: Op)
    ensures |s.pollers| <= |Step(s, op).pollers|
  {
    hide PollerStep;
    if ByPoller(op) && op.poller < |s.pollers| {
      PollerStepFrame(s, op.poller, op);
    }
  }

  /** What a poller's own step does to its phase. */
  lemma OwnPhase(s: State, op: Op, p: nat)
    requires p < |s.pollers| && ByPoller(op) && op.poller == p
    ensures var now, next := s.pollers[p].phase, Step(s, op).pollers[p].phase;
      match (op, now)
      case (ReadRow(_), Reading(w)) => next == Got(w, StatusOf(s, s.pollers[p].row))
      case (Resume(_), Got(w, read)) =>
        if read != Some(Running) then next == Closed(read) else next.Closing? || next == Checking(w)
      case (ReturnForInput(_), Checking(_)) => next == Closed(Some(Running))
      case (Park(_), Checking(w)) => next == Parked(w)
      case (Wake(_), Parked(_)) => next == now || next.Reading?
      case (CloseOrphan(_), Closing(w)) => next == Rereading(w)
      case (Reread(_), Rereading(_)) => next == Closed(StatusOf(s, s.pollers[p].row))
      case (Cancel(_), Closed(_)) => next == now
      case (Cancel(_), _) => next == Closed(None)
      case (_, _) => next == now
  {
  }

  lemma OwnRemembers(ops: seq<Op>, op: Op, p: nat)
    requires p < |Run(INITIAL, ops).pollers| && Remembers(ops, p) && ByPoller(op) && op.poller == p
    requires p < |Run(INITIAL, ops + [op]).pollers| && Run(INITIAL, ops + [op]) == Step(Run(INITIAL, ops), op)
    requires Run(INITIAL, ops + [op]).pollers[p].row == Run(INITIAL, ops).pollers[p].row
    requires PollerInOrder(Run(INITIAL, ops), Run(INITIAL, ops).pollers[p])
    ensures Remembers(ops + [op], p)
  {
    hide Run, Step, Reads, IsCancelled, ReturnsForInput, HasRead, EverCancelled, EverReturnedForInput;
    var s := Run(INITIAL, ops);
    OwnStep(ops, op, p);
    OwnPhase(s, op, p);
    SnocCancelled(ops, op, p);
    SnocReturned(ops, op, p);
    SnocReads(ops, op, p, s.pollers[p].row, StatusOf(s, s.pollers[p].row));
    if s.pollers[p].phase.Got? {
      SnocReads(ops, op, p, s.pollers[p].row, s.pollers[p].phase.read);
    }
    if s.pollers[p].phase.Closed? {
      SnocReads(ops, op, p, s.pollers[p].row, s.pollers[p].phase.report);
    }
    SnocReads(ops, op, p, s.pollers[p].row, Some(Running));
  }

  lemma OtherRemembers(ops: seq<Op>, op: Op, p: nat)
    requires p < |Run(INITIAL, ops).pollers| && Remembers(ops, p) && !(ByPoller(op) && op.poller == p)
    requires Run(INITIAL, ops + [op]) == Step(Run(INITIAL, ops), op) && p < |Run(INITIAL, ops + [op]).pollers|
    ensures Remembers(ops + [op], p)
  {
    hide Run, Step, Reads, IsCancelled, ReturnsForInput, HasRead, EverCancelled, EverReturnedForInput;
    var poller := Run(INITIAL, ops).pollers[p];
    OthersStep(ops, op, p);
    SnocCancelled(ops, op, p);
    SnocReturned(ops, op, p);
    forall status ensures HasRead(ops + [op], p, poller.row, status) <==> HasRead(ops, p, poller.row, status) {
      SnocReads(ops, op, p, poller.row, status);
    }
  }

  lemma NewRemembers(ops: seq<Op>, op: Op, p: nat)
    requires Run(INITIAL, ops + [op]) == Step(Run(INITIAL, ops), op)
    requires |Run(INITIAL, ops).pollers| <= p < |Run(INITIAL, ops + [op]).pollers|
    ensures Remembers(ops + [op], p)
  {
    hide Run, PollerStep, EverCancelled, EverReturnedForInput;
    var s := Run(INITIAL, ops);
    if ByPoller(op) && op.poller < |s.pollers| {
      PollerStepFrame(s, op.poller, op);
    }
    assert s.pollers != Step(s, op).pollers;
    NotYet(ops, p);
    SnocCancelled(ops, op, p);
    SnocReturned(ops, op, p);
  }

  lemma {:induction false} EveryPollerRemembers(ops: seq<Op>, p: nat)
    requires p < |Run(INITIAL, ops).pollers|
    ensures Remembers(ops, p)
  {
    hide Step, Remembers, PollerInOrder;
    if ops != [] {
      var init, op := ops[..|ops| - 1], ops[|ops| - 1];
      assert ops == init + [op];
      if p < |Run(INITIAL, init).pollers| {
        EveryPollerRemembers(init, p);
        RunKeepsInv(init);
        if ByPoller(op) && op.poller == p {
          RowStays(Run(INITIAL, init), op, p);
          OwnRemembers(init, op, p);
        } else {
          OtherRemembers(init, op, p);
        }
      } else {
        NewRemembers(init, op, p);
      }
    }
  }

  lemma RowStays(s: State, op: Op, p: nat)
    requires p < |s.pollers| && ByPoller(op) && op.poller == p
    ensures p < |Step(s, op).pollers| && Step(s, op).pollers[p].row == s.pollers[p].row
  {
    hide PollerStep;
    PollerStepFrame(s, p, op);
  }

  /** In every run, a poller that has returned and was not cancelled reports exactly what its last read
      found: no status if and only if the row was gone by then, and otherwise the status of the row, which
      is terminal unless the poller returned for new input. */
  lemma ReportsLastRead(ops: seq<Op>, p: nat)
    requires p < |Run(INITIAL, ops).pollers| && Run(INITIAL, ops).pollers[p].phase.Closed?
    ensures var poller := Run(INITIAL, ops).pollers[p];
      EverCancelled(ops, p) ||
      exists k: nat ::
        && LastRead(ops, k, p, poller.row, poller.phase.report)
        && (poller.phase.report.None? <==> poller.row !in Run(INITIAL, ops[..k]).rows)
        && (poller.phase.report.Some? ==> poller.phase.report.value == Run(INITIAL, ops[..k]).rows[poller.row].status)
        && (poller.phase.report == Some(Running) <==> EverReturnedForInput(ops, p))
  {
    hide Run, EverCancelled, EverReturnedForInput, Reads;
    EveryPollerRemembers(ops, p);
  }

  lemma OutcomeIsWritten(ops: seq<Op>, j: nat, row: string)
    requires Reports(ops, j, row) && StatusOf(Run(INITIAL, ops[..j]), row) == Some(Running)
    ensures StatusOf(Run(INITIAL, ops[..j + 1]), row) == Some(ops[j].status) && ops[j].status != Running
  {
    assert ops[..j + 1][..j] == ops[..j];
  }

  lemma OutcomeStays(ops: seq<Op>, j: nat, k: nat, row: string)
    requires j < k < |ops|
    requires Reports(ops, j, row) && StatusOf(Run(INITIAL, ops[..j]), row) == Some(Running)
    ensures StatusOf(Run(INITIAL, ops[..k]), row) in {None, Some(ops[j].status)}
  {
    OutcomeIsWritten(ops, j, row);
    hide Run, Reports;
    assert ops[..j + 1] + ops[j + 1..k] == ops[..k];
    TerminalIsFinal(ops[..j + 1], ops[j + 1..k], row);
  }

  lemma OnlyOneLastRead(ops: seq<Op>, k: nat, p: nat, row: string, status: Option<Status>)
    requires HasRead(ops, p, row, status)
    requires Reads(ops, k, p) && forall i :: k < i < |ops| ==> !Reads(ops, i, p)
    ensures status == StatusOf(Run(INITIAL, ops[..k]), row)
  {
    hide Run, Reads;
    var l: nat :| LastRead(ops, l, p, row, status);
    ReadsInRun(ops, l, p);
    ReadsInRun(ops, k, p);
    assert !(l < k) && !(k < l);
  }

  lemma HonestReport(ops: seq<Op>, p: nat)
    requires p < |Run(INITIAL, ops).pollers| && Run(INITIAL, ops).pollers[p].phase.Closed? && !EverCancelled(ops, p)
    ensures var poller := Run(INITIAL, ops).pollers[p]; HasRead(ops, p, poller.row, poller.phase.report)
  {
    hide Run, EverCancelled, HasRead, EverReturnedForInput;
    EveryPollerRemembers(ops, p);
  }

  /** If the worker had reported before the last read of a poller that was not cancelled, the poller returns
      that outcome, or none if the row was gone. */
  lemma ReportsOutcome(ops: seq<Op>, p: nat, row: string, j: nat, k: nat)
    requires p < |Run(INITIAL, ops).pollers| && Run(INITIAL, ops).pollers[p].row == row
    requires Run(INITIAL, ops).pollers[p].phase.Closed? && !EverCancelled(ops, p)
    requires Reports(ops, j, row) && StatusOf(Run(INITIAL, ops[..j]), row) == Some(Running)
    requires j < k < |ops| && Reads(ops, k, p) && forall i :: k < i < |ops| ==> !Reads(ops, i, p)
    ensures Run(INITIAL, ops).pollers[p].phase.report ==
      if row in Run(INITIAL, ops[..k]).rows then Some(ops[j].status) else None
  {
    hide Run, Reports, Reads, EverCancelled, HasRead;
    HonestReport(ops, p);
    OnlyOneLastRead(ops, k, p, row, Run(INITIAL, ops).pollers[p].phase.report);
    OutcomeStays(ops, j, k, row);
  }

  // ----- Orphans -----

  /** A poller that resumes with a running row closes it as an orphan exactly when no worker is at work
      on it: the worker has left, or has not started yet. */
  lemma OrphanExactly(s: State, p: nat)
    requires Inv(s) && p < |s.pollers| && s.pollers[p].phase.Got?
    ensures Step(s, Resume(p)).pollers[p].phase.Closing? <==>
      s.pollers[p].phase.read == Some(Running) &&
      (AtStage(s, s.pollers[p].row, Created) || AtStage(s, s.pollers[p].row, Gone))
  {
    assert PollerInOrder(s, s.pollers[p]);
  }

  /** Step `k` of the run closes the row as an orphan. */
  predicate ClosesRow(ops: seq<Op>, k: nat, row: string) {
    k < |ops| && ops[k].CloseOrphan? &&
    var s := Run(INITIAL, ops[..k]);
    var p := ops[k].poller;
    p < |s.pollers| && s.pollers[p].phase.Closing? && s.pollers[p].row == row
  }

  /** At step `j` poller `p` resumes with the running row and finds no worker at work on it. */
  predicate FindsOrphan(ops: seq<Op>, j: nat, p: nat, row: string) {
    j < |ops| && ops[j] == Resume(p) &&
    var s := Run(INITIAL, ops[..j]);
    && p < |s.pollers| && s.pollers[p].row == row && row !in s.active
    && s.pollers[p].phase.Got? && s.pollers[p].phase.read == Some(Running)
  }

  lemma Unsliced(ops: seq<Op>, k: nat)
    requires k < |ops|
    ensures ops[..|ops| - 1][..k] == ops[..k]
  {
  }

  /** The last step is the only one that the run without it lacks. */
  lemma LastStep(ops: seq<Op>, row: string)
    requires ops != []
    ensures var init, n := ops[..|ops| - 1], |ops| - 1;
      && ((exists k: nat :: ClosesRow(ops, k, row)) <==> (exists k: nat :: ClosesRow(init, k, row)) || ClosesRow(ops, n, row))
      && ((exists k: nat :: Reports(ops, k, row)) <==> (exists k: nat :: Reports(init, k, row)) || Reports(ops, n, row))
      && forall j: nat, p: nat :: FindsOrphan(init, j, p, row) ==> FindsOrphan(ops, j, p, row)
  {
    hide Run;
    var init := ops[..|ops| - 1];
    forall k: nat | k < |init|
      ensures ClosesRow(init, k, row) <==> ClosesRow(ops, k, row)
      ensures Reports(init, k, row) <==> Reports(ops, k, row)
    {
      Unsliced(ops, k);
    }
    forall j: nat, p: nat | FindsOrphan(init, j, p, row) ensures FindsOrphan(ops, j, p, row) {
      Unsliced(ops, j);
    }
  }

  /** What one step makes of a row that is there afterwards. */
  lemma StatusStep(s: State, op: Op, row: string)
    requires Inv(s) && row in Step(s, op).rows
    ensures var t := Step(s, op);
      if row !in s.rows then row !in s.workers && t.rows[row].status == Running
      else t.rows[row].status != Running <==>
        || s.rows[row].status != Running
        || (op.WriteStatus? && op.row == row && op.status != Running && AtStage(s, row, Working))
        || (op.CloseOrphan? && op.poller < |s.pollers| && s.pollers[op.poller].phase.Closing?
            && s.pollers[op.poller].row == row)
  {
  }

  /** A row that is not there yet has neither worker nor poller, and no outcome. */
  lemma {:induction false} NoRowNoOutcome(ops: seq<Op>, row: string)
    requires row !in Run(INITIAL, ops).workers
    ensures forall k: nat :: !ClosesRow(ops, k, row) && !Reports(ops, k, row)
  {
    hide Step, Inv;
    if ops != [] {
      var init := ops[..|ops| - 1];
      var s := Run(INITIAL, init);
      RunKeepsInv(init);
      StepKeeps(s, ops[|ops| - 1]);
      NoRowNoOutcome(init, row);
      LastStep(ops, row);
      NoWorkerNoPoller(s, row);
    }
  }

  lemma NoWorkerNoPoller(s: State, row: string)
    requires Inv(s) && row !in s.workers
    ensures forall p :: 0 <= p < |s.pollers| ==> s.pollers[p].row != row
  {
    forall p | 0 <= p < |s.pollers| ensures s.pollers[p].row != row {
      assert PollerInOrder(s, s.pollers[p]);
    }
  }

  /** A row is terminal exactly when its worker has reported or a poller has closed it as an orphan. */
  lemma {:induction false} TerminalExactly(ops: seq<Op>, row: string)
    requires row in Run(INITIAL, ops).rows
    ensures Run(INITIAL, ops).rows[row].status != Running <==>
      (exists k: nat :: Reports(ops, k, row)) || (exists k: nat :: ClosesRow(ops, k, row))
  {
    hide Step, Inv;
    if ops != [] {
      var init := ops[..|ops| - 1];
      var s := Run(INITIAL, init);
      RunKeepsInv(init);
      StatusStep(s, ops[|ops| - 1], row);
      LastStep(ops, row);
      if row in s.rows {
        TerminalExactly(init, row);
      } else {
        NoRowNoOutcome(init, row);
        NoWorkerNoPoller(s, row);
      }
    }
  }

  lemma ClosingStep(s: State, op: Op, p: nat)
    requires p < |Step(s, op).pollers| && Step(s, op).pollers[p].phase.Closing?
    ensures p < |s.pollers| && s.pollers[p].row == Step(s, op).pollers[p].row
    ensures s.pollers[p].phase.Closing? ||
      (op == Resume(p) && s.pollers[p].row !in s.active
       && s.pollers[p].phase.Got? && s.pollers[p].phase.read == Some(Running))
  {
  }

  /** A poller that is about to close an orphan has found one. */
  lemma {:induction false} ClosingFoundOrphan(ops: seq<Op>, p: nat)
    requires p < |Run(INITIAL, ops).pollers| && Run(INITIAL, ops).pollers[p].phase.Closing?
    ensures exists j: nat :: FindsOrphan(ops, j, p, Run(INITIAL, ops).pollers[p].row)
  {
    hide Step;
    if ops != [] {
      var init, n := ops[..|ops| - 1], |ops| - 1;
      var row := Run(INITIAL, ops).pollers[p].row;
      ClosingStep(Run(INITIAL, init), ops[n], p);
      LastStep(ops, row);
      if Run(INITIAL, init).pollers[p].phase.Closing? {
        ClosingFoundOrphan(init, p);
      } else {
        assert FindsOrphan(ops, n, p, row);
      }
    }
  }

  lemma {:induction false} GoneStays(ops: seq<Op>, k: nat, row: string)
    requires k <= |ops| && AtStage(Run(INITIAL, ops[..k]), row, Gone)
    ensures AtStage(Run(INITIAL, ops), row, Gone)
  {
    hide Step;
    if k == |ops| {
      assert ops[..k] == ops;
    } else {
      Unsliced(ops, k);
      GoneStays(ops[..|ops| - 1], k, row);
      GoneStep(Run(INITIAL, ops[..|ops| - 1]), ops[|ops| - 1], row);
    }
  }

  lemma GoneStep(s: State, op: Op, row: string)
    requires AtStage(s, row, Gone)
    ensures AtStage(Step(s, op), row, Gone)
  {
  }

  lemma IdleStage(ops: seq<Op>, p: nat)
    requires p < |Run(INITIAL, ops).pollers| && Run(INITIAL, ops).pollers[p].row !in Run(INITIAL, ops).active
    ensures var s := Run(INITIAL, ops); AtStage(s, s.pollers[p].row, Created) || AtStage(s, s.pollers[p].row, Gone)
  {
    RunKeepsInv(ops);
    assert PollerInOrder(Run(INITIAL, ops), Run(INITIAL, ops).pollers[p]);
  }

  /** While a worker that has reported nothing is at work, its row is terminal already exactly when some
      poller found it running before the worker was registered and has closed it since. */
  lemma OvertakenExactly(ops: seq<Op>, row: string)
    requires AtStage(Run(INITIAL, ops), row, Working) && row in Run(INITIAL, ops).rows
    requires forall k: nat :: !Reports(ops, k, row)
    ensures Run(INITIAL, ops).rows[row].status != Running <==>
      exists j: nat, k: nat :: OvertakesStart(ops, j, k, row)
  {
    hide Run, FindsOrphan, Reports;
    TerminalExactly(ops, row);
    forall k: nat | ClosesRow(ops, k, row) ensures exists j: nat :: OvertakesStart(ops, j, k, row) {
      FoundBeforeStart(ops, k, row);
    }
  }

  /** The poller that closes the row at `k` has resumed with it at `j`, when the worker was not registered. */
  predicate OvertakesStart(ops: seq<Op>, j: nat, k: nat, row: string) {
    && j < k && ClosesRow(ops, k, row) && FindsOrphan(ops, j, ops[k].poller, row)
    && AtStage(Run(INITIAL, ops[..j]), row, Created)
  }

  lemma FoundBeforeStart(ops: seq<Op>, k: nat, row: string)
    requires ClosesRow(ops, k, row) && AtStage(Run(INITIAL, ops), row, Working)
    ensures exists j: nat :: OvertakesStart(ops, j, k, row)
  {
    hide Run;
    var p := ops[k].poller;
    ClosingFoundOrphan(ops[..k], p);
    var j: nat :| FindsOrphan(ops[..k], j, p, row);
    assert ops[..k][..j] == ops[..j];
    assert FindsOrphan(ops, j, p, row);
    IdleStage(ops[..j], p);
    if AtStage(Run(INITIAL, ops[..j]), row, Gone) {
      GoneStays(ops, j, row);
    }
    assert OvertakesStart(ops, j, k, row);
  }

  /** When the worker has not started yet, closing the orphan overtakes a sub-task that is about to run:
      the worker starts afterwards, and the outcome it reports is dropped. */
  lemma OrphanOvertakesStart(s: State, p: nat)
    requires Inv(s) && p < |s.pollers| && s.pollers[p].phase.Got? && s.pollers[p].phase.read == Some(Running)
    requires AtStage(s, s.pollers[p].row, Created)
    requires s.pollers[p].row in s.rows && s.rows[s.pollers[p].row].status == Running
    ensures var row := s.pollers[p].row;
      var t := Step(Step(Step(Step(s, Resume(p)), CloseOrphan(p)), StartWorker(row)), WriteStatus(row, Done));
      AtStage(t, row, Working) && row in t.rows && t.rows[row].status == Failed
  {
    var row := s.pollers[p].row;
    var closing := Step(s, Resume(p));
    assert closing.pollers[p].phase.Closing? by { OrphanExactly(s, p); }
    var closed := Step(closing, CloseOrphan(p));
    assert closed.rows[row].status == Failed && AtStage(closed, row, Created);
  }

  /** Such a state is reached: the row is read between its creation and the start of its worker. */
  lemma OrphanOvertakesStartInSomeRun()
    ensures var s := Run(INITIAL, [CreateRow("task", "run"), BeginPoll("other", "task"), ReadRow(0)]);
      && |s.pollers| == 1 && s.pollers[0].phase == Got(0, Some(Running))
      && AtStage(s, "task", Created) && StatusOf(s, "task") == Some(Running)
  {
    var ops := [CreateRow("task", "run"), BeginPoll("other", "task"), ReadRow(0)];
    assert ops[..2] == [CreateRow("task", "run"), BeginPoll("other", "task")];
    assert ops[..2][..1] == [CreateRow("task", "run")];
    assert ops[..2][..1][..0] == [];
    var created := Step(INITIAL, CreateRow("task", "run"));
    var polled := Step(created, BeginPoll("other", "task"));
    assert Run(INITIAL, ops[..1]) == created;
    assert Run(INITIAL, ops[..2]) == polled;
    assert polled.pollers[0] == Poller("other", "task", "run", Reading(0));
  }
}
