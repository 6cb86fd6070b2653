/** The in-process bus of live run events: cursors, retained rows and the step in progress. */
module RunBus {
  import opened Wrappers

  datatype Kind = StepStart | Final | Failure | UserQuestion | Other

  /** Some events belong to no step; the start of a step always names it. */
  datatype Event = Event(kind: Kind, step: Option<int>, body: string)

  predicate IsStart(e: Event) {
    e.kind == StepStart && e.step.Some?
  }

  /** Pruning before `step` keeps the event. */
  predicate StaysFrom(e: Event, step: int) {
    e.step.None? || e.step.value >= step
  }

  datatype Row = Row(cursor: nat, event: Event)

  datatype Snapshot = Snapshot(step: int, events: seq<Event>)

  /** What the bus holds for one run. */
  datatype Topic = Topic(rows: seq<Row>, cursor: nat, activeStep: Option<int>)

  const EMPTY := Topic([], 0, None)

  datatype Op = Publish(event: Event) | CompleteStep(step: int) | ClearBefore(step: int)

  /** The rows whose events belong to `step` or a later one. */
  function From(rows: seq<Row>, step: int): seq<Row> {
    if rows == [] then []
    else From(rows[..|rows| - 1], step) + (if StaysFrom(rows[|rows| - 1].event, step) then [rows[|rows| - 1]] else [])
  }

  function OfStep(events: seq<Event>, step: int): seq<Event> {
    if events == [] then []
    else OfStep(events[..|events| - 1], step) + (if events[|events| - 1].step == Some(step) then [events[|events| - 1]] else [])
  }

  /** The events of `step` among the rows. */
  function StepEvents(rows: seq<Row>, step: int): seq<Event> {
    if rows == [] then []
    else
      StepEvents(rows[..|rows| - 1], step) +
      (if rows[|rows| - 1].event.step == Some(step) then [rows[|rows| - 1].event] else [])
  }

  function After(rows: seq<Row>, cursor: int): seq<Row> {
    if rows == [] then []
    else After(rows[..|rows| - 1], cursor) + (if rows[|rows| - 1].cursor > cursor then [rows[|rows| - 1]] else [])
  }

  function Step(t: Topic, op: Op): Topic {
    match op
    case Publish(e) =>
      Topic(t.rows + [Row(t.cursor + 1, e)], t.cursor + 1, if IsStart(e) then e.step else t.activeStep)
    case CompleteStep(step) => t.(activeStep := if t.activeStep == Some(step) then None else t.activeStep)
    case ClearBefore(step) => t.(rows := From(t.rows, step), activeStep := Some(step))
  }

  function Run(ops: seq<Op>): Topic {
    if ops == [] then EMPTY else Step(Run(ops[..|ops| - 1]), ops[|ops| - 1])
  }

  function CurrentSnapshot(t: Topic): Option<Snapshot> {
    if t.activeStep.None? then None
    else Some(Snapshot(t.activeStep.value, StepEvents(t.rows, t.activeStep.value)))
  }

  function Published(ops: seq<Op>): seq<Event> {
    if ops == [] then []
    else Published(ops[..|ops| - 1]) + (if ops[|ops| - 1].Publish? then [ops[|ops| - 1].event] else [])
  }

  // ----- Cursors -----

  /** Cursors grow from row to row and never pass the last one given out. */
  predicate Ordered(rows: seq<Row>, last: nat) {
    && (forall i, j :: 0 <= i < j < |rows| ==> rows[i].cursor < rows[j].cursor)
    && (forall i :: 0 <= i < |rows| ==> 0 < rows[i].cursor <= last)
  }

  lemma {:induction false} FromOrdered(rows: seq<Row>, step: int, last: nat)
    requires Ordered(rows, last)
    ensures Ordered(From(rows, step), last)
    ensures forall r :: r in From(rows, step) <==> r in rows && StaysFrom(r.event, step)
  {
    hide Ordered;
    if rows == [] {
      NothingIsOrdered(last);
    } else {
      var n := |rows| - 1;
      OrderedInit(rows, last);
      FromOrdered(rows[..n], step, last);
      assert From(rows[..n], step) + [] == From(rows[..n], step);
      assert rows == rows[..n] + [rows[n]];
      OrderedWith(From(rows[..n], step), rows[n], last);
    }
  }

  lemma NothingIsOrdered(last: nat)
    ensures Ordered([], last)
  {
  }

  lemma OrderedInit(rows: seq<Row>, last: nat)
    requires rows != [] && Ordered(rows, last)
    ensures var n := |rows| - 1; Ordered(rows[..n], last) && 0 < rows[n].cursor <= last
    ensures forall r :: r in rows[..|rows| - 1] ==> r.cursor < rows[|rows| - 1].cursor
  {
  }

  lemma OrderedWith(rows: seq<Row>, r: Row, last: nat)
    requires Ordered(rows, last) && 0 < r.cursor <= last && forall x :: x in rows ==> x.cursor < r.cursor
    ensures Ordered(rows + [r], last)
  {
  }

  /** The cursor counts the events published, and a retained row is the event its cursor numbers. */
  lemma {:induction false} RowsAreNumbered(ops: seq<Op>)
    ensures var t := Run(ops);
      && Ordered(t.rows, t.cursor) && t.cursor == |Published(ops)|
      && forall r :: r in t.rows ==> 0 < r.cursor <= t.cursor && r.event == Published(ops)[r.cursor - 1]
  {
    if ops != [] {
      RowsAreNumbered(ops[..|ops| - 1]);
      if ops[|ops| - 1].ClearBefore? {
        FromOrdered(Run(ops[..|ops| - 1]).rows, ops[|ops| - 1].step, Run(ops[..|ops| - 1]).cursor);
      }
    }
  }

  // ----- Which step is in progress -----

  predicate Announces(op: Op) {
    op.ClearBefore? || (op.Publish? && IsStart(op.event))
  }

  function Announced(op: Op): int
    requires Announces(op)
  {
    if op.ClearBefore? then op.step else op.event.step.value
  }

  /** Step `step` was announced at `i`, and since then no step has been announced and it has not completed. */
  predicate AnnouncedLast(ops: seq<Op>, i: nat, step: int) {
    && i < |ops| && Announces(ops[i]) && Announced(ops[i]) == step
    && forall j :: i < j < |ops| ==> !Announces(ops[j]) && ops[j] != CompleteStep(step)
  }

  /** The last step announced, by pruning or by its start, and not completed since. */
  ghost predicate InProgress(ops: seq<Op>, step: int) {
    exists i: nat :: AnnouncedLast(ops, i, step)
  }

  lemma InProgressSnoc(ops: seq<Op>, op: Op, step: int)
    ensures InProgress(ops + [op], step) <==>
      if Announces(op) then Announced(op) == step else InProgress(ops, step) && op != CompleteStep(step)
  {
    var all := ops + [op];
    assert forall j :: 0 <= j < |ops| ==> all[j] == ops[j];
    if i: nat :| AnnouncedLast(all, i, step) {
      assert i < |ops| ==> all[|ops|] == op && (!Announces(op) ==> AnnouncedLast(ops, i, step));
    }
    if Announces(op) && Announced(op) == step {
      assert AnnouncedLast(all, |ops|, step);
    }
    if !Announces(op) && op != CompleteStep(step) && InProgress(ops, step) {
      var i: nat :| AnnouncedLast(ops, i, step);
      assert AnnouncedLast(all, i, step);
    }
  }

  /** The bus takes a step for active exactly while it is in progress, and no step otherwise. */
  lemma {:induction false} ActiveStepExactly(ops: seq<Op>)
    ensures forall step :: Run(ops).activeStep == Some(step) <==> InProgress(ops, step)
  {
    hide InProgress;
    if ops == [] {
      NothingInProgress();
    } else {
      var init, op := ops[..|ops| - 1], ops[|ops| - 1];
      ActiveStepExactly(init);
      assert ops == init + [op];
      forall step ensures Run(ops).activeStep == Some(step) <==> InProgress(ops, step) {
        InProgressSnoc(init, op, step);
      }
    }
  }

  lemma NothingInProgress()
    ensures forall step :: !InProgress([], step)
  {
  }

  lemma RowsAfterStep(t: Topic, op: Op, row: Row)
    requires Ordered(t.rows, t.cursor)
    ensures row in Step(t, op).rows <==>
      match op
      case Publish(e) => row in t.rows || row == Row(t.cursor + 1, e)
      case ClearBefore(step) => row in t.rows && StaysFrom(row.event, step)
      case CompleteStep(_) => row in t.rows
  {
    hide From, Ordered;
    if op.ClearBefore? {
      FromOrdered(t.rows, op.step, t.cursor);
    }
  }

  /** No pruning past the step `limit` among the calls from `lo` on. */
  predicate NoPruningPast(ops: seq<Op>, lo: nat, limit: int) {
    forall j :: lo <= j < |ops| && ops[j].ClearBefore? ==> ops[j].step <= limit
  }

  lemma NoPruningSnoc(ops: seq<Op>, lo: nat, limit: int)
    requires lo < |ops|
    ensures var init, last := ops[..|ops| - 1], ops[|ops| - 1];
      NoPruningPast(ops, lo, limit) <==> NoPruningPast(init, lo, limit) && (last.ClearBefore? ==> last.step <= limit)
  {
    var init := ops[..|ops| - 1];
    assert forall j :: 0 <= j < |init| ==> init[j] == ops[j];
  }

  lemma JustPublished(ops: seq<Op>)
    requires ops != [] && ops[|ops| - 1].Publish?
    ensures ops[..|ops|] == ops && Row(|Published(ops)|, ops[|ops| - 1].event) in Run(ops).rows
  {
    hide Ordered;
    RowsAreNumbered(ops[..|ops| - 1]);
  }

  /** Whether an event is still retained: exactly when it belongs to no step, or no step past its own has been
      announced by pruning since it was published. */
  lemma {:induction false} RetainedExactly(ops: seq<Op>, i: nat)
    requires i < |ops| && ops[i].Publish?
    ensures Row(|Published(ops[..i + 1])|, ops[i].event) in Run(ops).rows <==>
      ops[i].event.step.None? || NoPruningPast(ops, i + 1, ops[i].event.step.value)
  {
    var init, last := ops[..|ops| - 1], ops[|ops| - 1];
    var row := Row(|Published(ops[..i + 1])|, ops[i].event);
    if i == |ops| - 1 {
      JustPublished(ops);
    } else {
      hide Step, From, NoPruningPast, Ordered;
      RowsAreNumbered(init);
      RowsAfterStep(Run(init), last, row);
      assert init[..i + 1] == ops[..i + 1];
      RetainedExactly(init, i);
      if ops[i].event.step.Some? {
        NoPruningSnoc(ops, i + 1, ops[i].event.step.value);
      }
      PublishedPrefix(init, i + 1);
    }
  }

  lemma {:induction false} PublishedPrefix(ops: seq<Op>, n: nat)
    requires n <= |ops|
    ensures |Published(ops[..n])| <= |Published(ops)|
  {
    if n < |ops| {
      assert ops[..|ops| - 1][..n] == ops[..n];
      PublishedPrefix(ops[..|ops| - 1], n);
    } else {
      assert ops[..n] == ops;
    }
  }

  // ----- When the snapshot is complete -----

  /** No pruning beyond `step` happened after one of its events was published. */
  predicate NeverPruned(ops: seq<Op>, step: int) {
    forall i, j :: 0 <= i < j < |ops| && ops[i].Publish? && ops[i].event.step == Some(step) && ops[j].ClearBefore? ==>
      ops[j].step <= step
  }

  lemma StepEventsSnoc(rows: seq<Row>, r: Row, step: int)
    ensures StepEvents(rows + [r], step) == StepEvents(rows, step) + (if r.event.step == Some(step) then [r.event] else [])
  {
    assert (rows + [r])[..|rows|] == rows;
  }

  lemma {:induction false} StepEventsOfFrom(rows: seq<Row>, from: int, step: int)
    ensures StepEvents(From(rows, from), step) == if from <= step then StepEvents(rows, step) else []
  {
    if rows != [] {
      var init, last := rows[..|rows| - 1], rows[|rows| - 1];
      StepEventsOfFrom(init, from, step);
      if StaysFrom(last.event, from) {
        StepEventsSnoc(From(init, from), last, step);
      } else {
        assert From(rows, from) == From(init, from);
        assert from <= step ==> StepEvents(rows, step) == StepEvents(init, step);
      }
    }
  }

  lemma OfStepSnoc(events: seq<Event>, e: Event, step: int)
    ensures OfStep(events + [e], step) == OfStep(events, step) + (if e.step == Some(step) then [e] else [])
  {
    assert (events + [e])[..|events|] == events;
  }

  lemma {:induction false} OfStepAppend(a: seq<Event>, b: seq<Event>, step: int)
    ensures OfStep(a + b, step) == OfStep(a, step) + OfStep(b, step)
  {
    if b == [] {
      assert a + b == a;
    } else {
      OfStepAppend(a, b[..|b| - 1], step);
      assert a + b == (a + b[..|b| - 1]) + [b[|b| - 1]];
      OfStepSnoc(a + b[..|b| - 1], b[|b| - 1], step);
    }
  }

  predicate Has(ops: seq<Op>, step: int) {
    exists i :: 0 <= i < |ops| && ops[i].Publish? && ops[i].event.step == Some(step)
  }

  lemma NeverPrunedSnoc(ops: seq<Op>, op: Op, step: int)
    ensures NeverPruned(ops + [op], step) <==>
      NeverPruned(ops, step) && !(op.ClearBefore? && op.step > step && Has(ops, step))
    ensures Has(ops + [op], step) <==> Has(ops, step) || (op.Publish? && op.event.step == Some(step))
  {
    var all := ops + [op];
    assert forall i :: 0 <= i < |ops| ==> all[i] == ops[i];
    if Has(ops, step) {
      var i :| 0 <= i < |ops| && ops[i].Publish? && ops[i].event.step == Some(step);
      assert all[i] == ops[i] && all[|ops|] == op;
    }
    if op.Publish? && op.event.step == Some(step) {
      assert all[|ops|] == op;
    }
  }

  /** The retained events of a step are all of them exactly when none was pruned; pruning takes all the
      events of a step that were there. */
  lemma {:induction false} KeptIffNeverPruned(ops: seq<Op>, step: int)
    ensures var kept, published := StepEvents(Run(ops).rows, step), OfStep(Published(ops), step);
      && |kept| <= |published|
      && (NeverPruned(ops, step) <==> kept == published)
      && (NeverPruned(ops, step) <==> |kept| == |published|)
      && (Has(ops, step) <==> published != [])
  {
    if ops != [] {
      var init, last := ops[..|ops| - 1], ops[|ops| - 1];
      var rows := Run(init).rows;
      KeptIffNeverPruned(init, step);
      NeverPrunedSnoc(init, last, step);
      assert ops == init + [last];
      assert !last.Publish? ==> Published(ops) == Published(init);
      match last
      case Publish(e) =>
        StepEventsSnoc(rows, Row(Run(init).cursor + 1, e), step);
        OfStepSnoc(Published(init), e, step);
      case ClearBefore(s) =>
        StepEventsOfFrom(rows, s, step);
      case CompleteStep(_) =>
    }
  }

  /** There is a snapshot exactly while a step is in progress, and it is of that step. It holds every event
      the step has published, in order, exactly when no later step was announced by pruning after one of
      them. */
  lemma SnapshotCompleteIff(ops: seq<Op>, step: int)
    ensures InProgress(ops, step) <==> CurrentSnapshot(Run(ops)).Some? && CurrentSnapshot(Run(ops)).value.step == step
    ensures InProgress(ops, step) ==>
      (CurrentSnapshot(Run(ops)).value.events == OfStep(Published(ops), step) <==> NeverPruned(ops, step))
  {
    ActiveStepExactly(ops);
    KeptIffNeverPruned(ops, step);
  }

  /** Steps as the executor announces them: it prunes, and starts a step, only at or past the last one. */
  predicate InStepOrder(ops: seq<Op>) {
    forall i, j :: 0 <= i < j < |ops| && Announces(ops[i]) && Announces(ops[j]) ==> Announced(ops[i]) <= Announced(ops[j])
  }

  /** Announced in that order, the snapshot is always complete: while a step is in progress it is that
      step's, with all of its events. */
  lemma SnapshotCompleteInStepOrder(ops: seq<Op>, step: int)
    requires InStepOrder(ops)
    ensures InProgress(ops, step) <==> CurrentSnapshot(Run(ops)) == Some(Snapshot(step, OfStep(Published(ops), step)))
  {
    SnapshotCompleteIff(ops, step);
    if InProgress(ops, step) {
      var i: nat :| AnnouncedLast(ops, i, step);
      forall j | 0 <= j < |ops| && ops[j].ClearBefore? ensures ops[j].step <= step {
        assert Announces(ops[j]) && Announces(ops[i]);
      }
    }
  }

  // ----- The rows past a cursor -----

  /** Where the tail of rows past the cursor starts. */
  function TailStart(rows: seq<Row>, cursor: int): (k: nat)
    ensures k <= |rows|
    ensures forall i :: k <= i < |rows| ==> rows[i].cursor > cursor
    ensures k > 0 ==> rows[k - 1].cursor <= cursor
  {
    if rows == [] then 0
    else if rows[|rows| - 1].cursor > cursor then TailStart(rows[..|rows| - 1], cursor)
    else |rows|
  }

  lemma {:induction false} AfterAppend(a: seq<Row>, b: seq<Row>, cursor: int)
    ensures After(a + b, cursor) == After(a, cursor) + After(b, cursor)
  {
    if b == [] {
      assert a + b == a;
    } else {
      AfterAppend(a, b[..|b| - 1], cursor);
      assert (a + b)[..|a + b| - 1] == a + b[..|b| - 1];
    }
  }

  lemma {:induction false} AfterAll(rows: seq<Row>, cursor: int)
    requires forall i :: 0 <= i < |rows| ==> rows[i].cursor > cursor
    ensures After(rows, cursor) == rows
  {
    if rows != [] {
      AfterAll(rows[..|rows| - 1], cursor);
    }
  }

  lemma {:induction false} AfterNone(rows: seq<Row>, cursor: int)
    requires forall i :: 0 <= i < |rows| ==> rows[i].cursor <= cursor
    ensures After(rows, cursor) == []
  {
    if rows != [] {
      AfterNone(rows[..|rows| - 1], cursor);
    }
  }

  /** In a buffer whose cursors grow, the rows past a cursor are a tail of the buffer. */
  lemma AfterIsTail(rows: seq<Row>, last: nat, cursor: int) returns (k: nat)
    requires Ordered(rows, last)
    ensures k <= |rows| && After(rows, cursor) == rows[k..]
    ensures forall i :: 0 <= i < |rows| ==> (i >= k <==> rows[i].cursor > cursor)
  {
    hide Ordered, After, TailStart;
    k := TailStart(rows, cursor);
    StartSplits(rows, last, cursor);
    AfterSplit(rows, k, cursor);
  }

  lemma StartSplits(rows: seq<Row>, last: nat, cursor: int)
    requires Ordered(rows, last)
    ensures forall i :: 0 <= i < |rows| ==> (i >= TailStart(rows, cursor) <==> rows[i].cursor > cursor)
  {
    var k := TailStart(rows, cursor);
    forall i | 0 <= i < k ensures rows[i].cursor <= cursor {
      assert i < k - 1 ==> rows[i].cursor < rows[k - 1].cursor;
    }
  }

  lemma AfterSplit(rows: seq<Row>, k: nat, cursor: int)
    requires k <= |rows| && forall i :: 0 <= i < |rows| ==> (i >= k <==> rows[i].cursor > cursor)
    ensures After(rows, cursor) == rows[k..]
  {
    hide After;
    assert rows == rows[..k] + rows[k..];
    AfterAppend(rows[..k], rows[k..], cursor);
    AfterNone(rows[..k], cursor);
    AfterAll(rows[k..], cursor);
  }

  // ----- The bus as it runs -----

  class Bus {
    var buffers: map<string, seq<Row>>
    var cursors: map<string, nat>
    var activeSteps: map<string, int>

    ghost function View(runId: string): Topic
      reads this
    {
      Topic(if runId in buffers then buffers[runId] else [],
            if runId in cursors then cursors[runId] else 0,
            if runId in activeSteps then Some(activeSteps[runId]) else None)
    }

    constructor ()
      ensures forall r :: View(r) == EMPTY
    {
      buffers, cursors, activeSteps := map[], map[], map[];
    }

    method PublishEvent(runId: string, event: Event) returns (row: Row)
      modifies this
      ensures View(runId) == Step(old(View(runId)), Publish(event))
      ensures row == Row(View(runId).cursor, event) && row in View(runId).rows
      ensures forall r :: r != runId ==> View(r) == old(View(r))
    {
      if IsStart(event) {
        activeSteps := activeSteps[runId := event.step.value];
      }
      var cursor := (if runId in cursors then cursors[runId] else 0) + 1;
      cursors := cursors[runId := cursor];
      row := Row(cursor, event);
      if runId in buffers {
        buffers := buffers[runId := buffers[runId] + [row]];
      } else {
        buffers := buffers[runId := [row]];
      }
    }

    method EventsAfter(runId: string, cursor: int) returns (rows: seq<Row>)
      ensures rows == After(View(runId).rows, cursor)
    {
      rows := After(if runId in buffers then buffers[runId] else [], cursor);
    }

    method CurrentStepSnapshot(runId: string) returns (s: Option<Snapshot>)
      ensures s == CurrentSnapshot(View(runId))
    {
      var rows := if runId in buffers then buffers[runId] else [];
      if runId !in activeSteps {
        return None;
      }
      s := Some(Snapshot(activeSteps[runId], StepEvents(rows, activeSteps[runId])));
    }

    method PublishStepCompleted(runId: string, step: int)
      modifies this
      ensures View(runId) == Step(old(View(runId)), CompleteStep(step))
      ensures forall r :: r != runId ==> View(r) == old(View(r))
    {
      if runId in activeSteps && activeSteps[runId] == step {
        activeSteps := activeSteps - {runId};
      }
    }

    method ClearBeforeStep(runId: string, step: int)
      modifies this
      ensures View(runId) == Step(old(View(runId)), ClearBefore(step))
      ensures forall r :: r != runId ==> View(r) == old(View(r))
    {
      activeSteps := activeSteps[runId := step];
      if runId in buffers {
        buffers := buffers[runId := From(buffers[runId], step)];
      }
    }

    /** Ends the session of a run: its cursors start over. */
    method Clear(runId: string)
      modifies this
      ensures View(runId) == EMPTY
      ensures forall r :: r != runId ==> View(r) == old(View(r))
    {
      buffers := buffers - {runId};
      cursors := cursors - {runId};
      activeSteps := activeSteps - {runId};
    }
  }
}
