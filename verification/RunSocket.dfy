/** The sockets that stream a run: the web client's subscription and the replay for external callers. */
module RunSocket {
  import opened RunBus
  import opened Wrappers

  // ----- The web client -----

  datatype Frame =
    | EventFrame(row: Row)
    | CompletedFrame(step: int)
    | SnapshotFrame(cursor: nat, snapshot: Option<Snapshot>)

  /** What a subscription has handed to its callbacks, and what it still holds back. */
  datatype Client = Client(snapshotReceived: bool, pending: seq<Row>, snapshot: Option<Snapshot>, delivered: seq<Event>)

  const CONNECTED := Client(false, [], None, [])

  predicate Sorted(rows: seq<Row>) {
    forall i, j :: 0 <= i < j < |rows| ==> rows[i].cursor <= rows[j].cursor
  }

  /** Inserts a row in front of the first one with a larger cursor, so equal cursors keep their order. */
  function Insert(rows: seq<Row>, r: Row): (s: seq<Row>) {
    if rows == [] || rows[|rows| - 1].cursor <= r.cursor then rows + [r]
    else Insert(rows[..|rows| - 1], r) + [rows[|rows| - 1]]
  }

  function SortByCursor(rows: seq<Row>): (s: seq<Row>) {
    if rows == [] then [] else Insert(SortByCursor(rows[..|rows| - 1]), rows[|rows| - 1])
  }

  function Events(rows: seq<Row>): seq<Event> {
    if rows == [] then [] else Events(rows[..|rows| - 1]) + [rows[|rows| - 1].event]
  }

  function Receive(c: Client, frame: Frame): Client {
    match frame
    case EventFrame(row) =>
      if c.snapshotReceived then c.(delivered := c.delivered + [row.event]) else c.(pending := c.pending + [row])
    case CompletedFrame(_) => c
    case SnapshotFrame(cursor, snapshot) =>
      Client(true, [], snapshot, c.delivered + Events(After(SortByCursor(c.pending), cursor)))
  }

  function ReceiveAll(c: Client, frames: seq<Frame>): Client {
    if frames == [] then c else Receive(ReceiveAll(c, frames[..|frames| - 1]), frames[|frames| - 1])
  }

  lemma {:induction false} InsertKeeps(rows: seq<Row>, r: Row)
    ensures multiset(Insert(rows, r)) == multiset(rows + [r])
  {
    if rows != [] && rows[|rows| - 1].cursor > r.cursor {
      var init, last := rows[..|rows| - 1], rows[|rows| - 1];
      InsertKeeps(init, r);
      assert rows == init + [last];
    }
  }

  lemma {:induction false} InsertSorts(rows: seq<Row>, r: Row)
    requires Sorted(rows)
    ensures Sorted(Insert(rows, r))
  {
    if rows != [] && rows[|rows| - 1].cursor > r.cursor {
      var init, last := rows[..|rows| - 1], rows[|rows| - 1];
      InsertSorts(init, r);
      InsertKeeps(init, r);
      AllAtMost(Insert(init, r), init + [r], last.cursor);
    }
  }

  lemma AllAtMost(s: seq<Row>, t: seq<Row>, cursor: int)
    requires multiset(s) == multiset(t) && forall i :: 0 <= i < |t| ==> t[i].cursor <= cursor
    ensures forall i :: 0 <= i < |s| ==> s[i].cursor <= cursor
  {
    forall i | 0 <= i < |s| ensures s[i].cursor <= cursor {
      assert s[i] in multiset(t);
    }
  }

  lemma {:induction false} SortSorts(rows: seq<Row>)
    ensures Sorted(SortByCursor(rows)) && multiset(SortByCursor(rows)) == multiset(rows)
  {
    if rows != [] {
      SortSorts(rows[..|rows| - 1]);
      InsertSorts(SortByCursor(rows[..|rows| - 1]), rows[|rows| - 1]);
      InsertKeeps(SortByCursor(rows[..|rows| - 1]), rows[|rows| - 1]);
      assert rows == rows[..|rows| - 1] + [rows[|rows| - 1]];
    }
  }

  /** What the snapshot covers is not delivered again. */
  lemma CoveredIsDropped(pending: seq<Row>, cursor: int)
    requires forall i :: 0 <= i < |pending| ==> pending[i].cursor <= cursor
    ensures Events(After(SortByCursor(pending), cursor)) == []
  {
    SortSorts(pending);
    AllAtMost(SortByCursor(pending), pending, cursor);
    AfterNone(SortByCursor(pending), cursor);
  }

  // ----- The server side of the web socket, interleaved with the bus -----

  datatype Phase = Unsubscribed | Subscribed | Live

  datatype Web = Web(topic: Topic, phase: Phase, frames: seq<Frame>)

  datatype WebOp = OnBus(op: Op) | Subscribe | AnnounceStep(step: int) | SendSnapshot

  const START := Web(EMPTY, Unsubscribed, [])

  /** The frame sent in one atomic step, if any. While subscribed, a publication is sent as it happens, and
      so is a completed step; the snapshot is taken and sent with the cursor of the same moment. */
  function Sent(w: Web, op: WebOp): Option<Frame> {
    if op == SendSnapshot && w.phase == Subscribed then Some(SnapshotFrame(w.topic.cursor, CurrentSnapshot(w.topic)))
    else if w.phase == Unsubscribed then None
    else
      match op
      case OnBus(Publish(e)) => Some(EventFrame(Row(w.topic.cursor + 1, e)))
      case OnBus(CompleteStep(step)) => Some(CompletedFrame(step))
      case AnnounceStep(step) => Some(CompletedFrame(step))
      case _ => None
  }

  function NextPhase(phase: Phase, op: WebOp): Phase {
    if phase == Unsubscribed && op == Subscribe then Subscribed
    else if phase == Subscribed && op == SendSnapshot then Live
    else phase
  }

  function WebStep(w: Web, op: WebOp): Web {
    Web(if op.OnBus? then Step(w.topic, op.op) else w.topic, NextPhase(w.phase, op),
        if Sent(w, op).Some? then w.frames + [Sent(w, op).value] else w.frames)
  }

  function WebRun(ops: seq<WebOp>): Web {
    if ops == [] then START else WebStep(WebRun(ops[..|ops| - 1]), ops[|ops| - 1])
  }

  /** What happened on the bus, without the socket. */
  function BusOps(ops: seq<WebOp>): seq<Op> {
    if ops == [] then []
    else BusOps(ops[..|ops| - 1]) + (if ops[|ops| - 1].OnBus? then [ops[|ops| - 1].op] else [])
  }

  lemma {:induction false} TopicIsTheBus(ops: seq<WebOp>)
    ensures WebRun(ops).topic == Run(BusOps(ops))
  {
    if ops != [] {
      TopicIsTheBus(ops[..|ops| - 1]);
      if ops[|ops| - 1].OnBus? {
        var before := BusOps(ops[..|ops| - 1]);
        assert (before + [ops[|ops| - 1].op])[..|before|] == before;
      } else {
        assert BusOps(ops) == BusOps(ops[..|ops| - 1]);
      }
    }
  }

  lemma ReceiveStep(w: Web, op: WebOp)
    ensures ReceiveAll(CONNECTED, WebStep(w, op).frames) ==
      if Sent(w, op).Some? then Receive(ReceiveAll(CONNECTED, w.frames), Sent(w, op).value)
      else ReceiveAll(CONNECTED, w.frames)
  {
    if Sent(w, op).Some? {
      ReceiveSnoc(CONNECTED, w.frames, Sent(w, op).value);
    }
  }

  lemma ReceiveSnoc(c: Client, frames: seq<Frame>, frame: Frame)
    ensures ReceiveAll(c, frames + [frame]) == Receive(ReceiveAll(c, frames), frame)
  {
    assert (frames + [frame])[..|frames|] == frames;
  }

  /** The client delivers nothing yet, and all it holds back has been counted already. */
  predicate HeldBack(w: Web) {
    var c := ReceiveAll(CONNECTED, w.frames);
    && !c.snapshotReceived && c.delivered == [] && c.snapshot == None
    && (w.phase == Unsubscribed ==> w.frames == [])
    && forall i :: 0 <= i < |c.pending| ==> c.pending[i].cursor <= w.topic.cursor
  }

  lemma StepHoldsBack(w: Web, op: WebOp)
    requires HeldBack(w) && w.phase != Live && WebStep(w, op).phase != Live
    ensures HeldBack(WebStep(w, op))
  {
    hide ReceiveAll;
    ReceiveStep(w, op);
  }

  lemma OnlySnapshotGoesLive(w: Web, op: WebOp)
    ensures WebStep(w, op).phase != Live ==> w.phase != Live
  {
  }

  /** Before the snapshot this holds in every run. */
  lemma {:induction false} HeldBackUntilSnapshot(ops: seq<WebOp>)
    requires WebRun(ops).phase != Live
    ensures HeldBack(WebRun(ops))
  {
    hide WebStep, HeldBack;
    if ops == [] {
      HeldBackAtStart();
    } else {
      OnlySnapshotGoesLive(WebRun(ops[..|ops| - 1]), ops[|ops| - 1]);
      HeldBackUntilSnapshot(ops[..|ops| - 1]);
      StepHoldsBack(WebRun(ops[..|ops| - 1]), ops[|ops| - 1]);
    }
  }

  lemma HeldBackAtStart()
    ensures HeldBack(START)
  {
  }

  /** The moment of the snapshot: nothing held back is delivered, since the snapshot covers it. */
  lemma SnapshotCoversPending(ops: seq<WebOp>)
    requires WebRun(ops).phase == Subscribed
    ensures WebStep(WebRun(ops), SendSnapshot).phase == Live
    ensures var w := WebRun(ops);
      ReceiveAll(CONNECTED, WebStep(w, SendSnapshot).frames) == Client(true, [], CurrentSnapshot(w.topic), [])
  {
    var w := WebRun(ops);
    HeldBackUntilSnapshot(ops);
    var c := ReceiveAll(CONNECTED, w.frames);
    ReceiveStep(w, SendSnapshot);
    CoveredIsDropped(c.pending, w.topic.cursor);
  }

  lemma {:induction false} BusOpsAppend(a: seq<WebOp>, b: seq<WebOp>)
    ensures BusOps(a + b) == BusOps(a) + BusOps(b)
  {
    if b == [] {
      assert a + b == a;
    } else {
      BusOpsAppend(a, b[..|b| - 1]);
      assert (a + b)[..|a + b| - 1] == a + b[..|b| - 1];
    }
  }

  lemma {:induction false} PublishedAppend(a: seq<Op>, b: seq<Op>)
    ensures Published(a + b) == Published(a) + Published(b)
  {
    if b == [] {
      assert a + b == a;
    } else {
      PublishedAppend(a, b[..|b| - 1]);
      assert (a + b)[..|a + b| - 1] == a + b[..|b| - 1];
    }
  }

  function PublishedBy(op: WebOp): seq<Event> {
    if op.OnBus? && op.op.Publish? then [op.op.event] else []
  }

  /** After the snapshot, a step hands to the client what it publishes, and nothing else. */
  lemma LiveStep(w: Web, op: WebOp)
    requires w.phase == Live && ReceiveAll(CONNECTED, w.frames).snapshotReceived
    ensures var c := ReceiveAll(CONNECTED, w.frames);
      && WebStep(w, op).phase == Live
      && ReceiveAll(CONNECTED, WebStep(w, op).frames) == c.(delivered := c.delivered + PublishedBy(op))
  {
    hide ReceiveAll;
    ReceiveStep(w, op);
    var c := ReceiveAll(CONNECTED, w.frames);
    assert c.delivered + [] == c.delivered;
  }

  /** The web stream, for every interleaving: the client holds the snapshot taken at its moment, and has
      been handed exactly what was published since, in order, without gap or duplicate. */
  lemma {:induction false} DeliversEverythingSince(before: seq<WebOp>, after: seq<WebOp>)
    requires WebRun(before).phase == Subscribed
    ensures var w := WebRun(before + [SendSnapshot] + after);
      && w.phase == Live
      && ReceiveAll(CONNECTED, w.frames) == Client(true, [], CurrentSnapshot(WebRun(before).topic), Published(BusOps(after)))
  {
    hide WebStep, Receive;
    var ops := before + [SendSnapshot] + after;
    if after == [] {
      assert ops[..|ops| - 1] == before && ops[|ops| - 1] == SendSnapshot;
      SnapshotCoversPending(before);
    } else {
      var init, op := after[..|after| - 1], after[|after| - 1];
      assert ops[..|ops| - 1] == before + [SendSnapshot] + init && ops[|ops| - 1] == op;
      DeliversEverythingSince(before, init);
      LiveStep(WebRun(before + [SendSnapshot] + init), op);
      PublishedOfOne(init, op);
      assert init + [op] == after;
    }
  }

  lemma PublishedOfOne(init: seq<WebOp>, op: WebOp)
    ensures Published(BusOps(init + [op])) ==
      Published(BusOps(init)) + PublishedBy(op)
  {
    assert (init + [op])[..|init|] == init;
    if op.OnBus? {
      assert (BusOps(init) + [op.op])[..|BusOps(init)|] == BusOps(init);
    } else {
      assert BusOps(init + [op]) == BusOps(init);
      assert Published(BusOps(init)) + [] == Published(BusOps(init));
    }
  }

  /** The events of the step in progress reach the client exactly once, in publication order: the
      snapshot's followed by the live ones of that step are all of the step's events, if and only if none
      had been pruned before the snapshot. */
  lemma ActiveStepArrivesWhole(before: seq<WebOp>, after: seq<WebOp>, step: int)
    requires WebRun(before).phase == Subscribed && InProgress(BusOps(before), step)
    ensures var c := ReceiveAll(CONNECTED, WebRun(before + [SendSnapshot] + after).frames);
      && c.snapshot.Some? && c.snapshot.value.step == step
      && (c.snapshot.value.events + OfStep(c.delivered, step) == OfStep(Published(BusOps(before + after)), step)
          <==> NeverPruned(BusOps(before), step))
  {
    DeliversEverythingSince(before, after);
    TopicIsTheBus(before);
    SnapshotCompleteIff(BusOps(before), step);
    BusOpsAppend(before, after);
    PublishedAppend(BusOps(before), BusOps(after));
    OfStepAppend(Published(BusOps(before)), Published(BusOps(after)), step);
    var c := ReceiveAll(CONNECTED, WebRun(before + [SendSnapshot] + after).frames);
    var head, live := c.snapshot.value.events, OfStep(c.delivered, step);
    var all := OfStep(Published(BusOps(before)), step);
    assert (head + live)[..|head|] == head && (all + live)[..|all|] == all;
    assert head + live == all + live ==> |head| == |all|;
  }

  lemma EventsAfterSnoc(rows: seq<Row>, i: nat, cursor: int)
    requires i < |rows|
    ensures Events(After(rows[..i + 1], cursor)) ==
      Events(After(rows[..i], cursor)) + (if rows[i].cursor > cursor then [rows[i].event] else [])
  {
    assert rows[..i + 1][..i] == rows[..i];
    var passed := After(rows[..i], cursor);
    if rows[i].cursor > cursor {
      assert (passed + [rows[i]])[..|passed|] == passed;
    } else {
      assert After(rows[..i + 1], cursor) == passed;
      assert Events(passed) + [] == Events(passed);
    }
  }

  /** The client's message handler as it runs. */
  class RunSubscription {
    var snapshotReceived: bool
    var pendingEvents: seq<Row>
    var snapshot: Option<Snapshot>
    var delivered: seq<Event>

    ghost function View(): Client
      reads this
    {
      Client(snapshotReceived, pendingEvents, snapshot, delivered)
    }

    constructor ()
      ensures View() == CONNECTED
    {
      snapshotReceived, pendingEvents, snapshot, delivered := false, [], None, [];
    }

    method OnMessage(frame: Frame)
      modifies this
      ensures View() == Receive(old(View()), frame)
    {
      match frame
      case EventFrame(row) =>
        if snapshotReceived {
          delivered := delivered + [row.event];
        } else {
          pendingEvents := pendingEvents + [row];
        }
      case CompletedFrame(_) =>
      case SnapshotFrame(cursor, step) =>
        snapshot := step;
        snapshotReceived := true;
        Flush(SortByCursor(pendingEvents), cursor);
        pendingEvents := [];
    }

    /** Hands over what was held back and is past the snapshot. */
    method Flush(rows: seq<Row>, cursor: int)
      modifies this`delivered
      ensures delivered == old(delivered) + Events(After(rows, cursor))
    {
      for i := 0 to |rows|
        invariant delivered == old(delivered) + Events(After(rows[..i], cursor))
      {
        EventsAfterSnoc(rows, i, cursor);
        if rows[i].cursor > cursor {
          delivered := delivered + [rows[i].event];
        }
      }
      assert rows[..|rows|] == rows;
    }
  }

  // ----- The external socket -----

  datatype External = External(cursor: int, open: bool, sent: seq<Row>)

  predicate Ends(e: Event) {
    e.kind == Final || e.kind == Failure || e.kind == UserQuestion
  }

  function Send(x: External, row: Row): External {
    if !x.open || row.cursor <= x.cursor then x else External(row.cursor, !Ends(row.event), x.sent + [row])
  }

  function SendAll(x: External, rows: seq<Row>): External {
    if rows == [] then x else Send(SendAll(x, rows[..|rows| - 1]), rows[|rows| - 1])
  }

  /** Everything up to and including the first terminal event. */
  function UpToEnd(rows: seq<Row>): seq<Row> {
    if rows == [] then [] else if Ends(rows[0].event) then [rows[0]] else [rows[0]] + UpToEnd(rows[1..])
  }

  predicate NoEnd(rows: seq<Row>) {
    forall i :: 0 <= i < |rows| ==> !Ends(rows[i].event)
  }

  lemma {:induction false} UpToEndSnoc(rows: seq<Row>, r: Row)
    ensures NoEnd(rows) ==> UpToEnd(rows) == rows && UpToEnd(rows + [r]) == rows + [r]
    ensures !NoEnd(rows) ==> UpToEnd(rows + [r]) == UpToEnd(rows)
  {
    if rows == [] {
      assert [r][1..] == [];
    } else {
      UpToEndSnoc(rows[1..], r);
      assert (rows + [r])[1..] == rows[1..] + [r];
      assert NoEnd(rows) <==> !Ends(rows[0].event) && NoEnd(rows[1..]);
    }
  }

  /** In cursor order, a row that is not past the cursor follows none that is. */
  lemma AfterSnoc(init: seq<Row>, row: Row, requested: nat, last: nat)
    requires Ordered(init + [row], last)
    ensures After(init + [row], requested) == After(init, requested) + (if row.cursor > requested then [row] else [])
    ensures Ordered(init, last)
    ensures row.cursor <= requested ==> After(init, requested) == []
    ensures init != [] ==> init[|init| - 1].cursor < row.cursor
  {
    assert (init + [row])[..|init|] == init;
    assert forall i :: 0 <= i < |init| ==> (init + [row])[i] == init[i];
    assert (init + [row])[|init|] == row;
    if row.cursor <= requested {
      AfterNone(init, requested);
    }
  }

  lemma EmptyUpToEnd()
    ensures UpToEnd([]) == [] && NoEnd([])
  {
  }

  lemma NoEndSnoc(rows: seq<Row>, r: Row)
    ensures NoEnd(rows + [r]) <==> NoEnd(rows) && !Ends(r.event)
  {
    assert (rows + [r])[|rows|] == r;
    assert forall i :: 0 <= i < |rows| ==> (rows + [r])[i] == rows[i];
  }

  /** Whatever rows the socket is offered, replayed or live, in cursor order: it sends each one past the
      requested cursor exactly once, in order, up to and including the first terminal event. */
  lemma {:induction false} SendsPastCursorUntilEnd(requested: nat, rows: seq<Row>, last: nat)
    requires Ordered(rows, last)
    ensures var x := SendAll(External(requested, true, []), rows);
      && x.sent == UpToEnd(After(rows, requested))
      && (x.open <==> NoEnd(After(rows, requested)))
      && (x.open && After(rows, requested) != [] ==> x.cursor == rows[|rows| - 1].cursor)
      && (After(rows, requested) == [] ==> x.cursor == requested)
  {
    hide After, UpToEnd, NoEnd, Ordered;
    if rows == [] {
      AfterNone(rows, requested);
      EmptyUpToEnd();
    } else {
      var init, row := rows[..|rows| - 1], rows[|rows| - 1];
      assert rows == init + [row];
      AfterSnoc(init, row, requested, last);
      SendsPastCursorUntilEnd(requested, init, last);
      UpToEndSnoc(After(init, requested), row);
      NoEndSnoc(After(init, requested), row);
      assert After(init, requested) + [] == After(init, requested);
    }
  }

  /** The frames of one external connection: the retained rows at the moment of the subscription, then
      every row published afterwards, unless the run was already over. */
  function ExternalRun(requested: nat, retained: seq<Row>, over: bool, live: seq<Row>): External {
    var replayed := SendAll(External(requested, true, []), After(retained, requested));
    SendAll(if over then replayed.(open := false) else replayed, live)
  }

  lemma {:induction false} ClosedSendsNothing(x: External, rows: seq<Row>)
    requires !x.open
    ensures SendAll(x, rows) == x
  {
    if rows != [] {
      ClosedSendsNothing(x, rows[..|rows| - 1]);
    }
  }

  lemma {:induction false} SendAllAppend(x: External, a: seq<Row>, b: seq<Row>)
    ensures SendAll(x, a + b) == SendAll(SendAll(x, a), b)
  {
    if b == [] {
      assert a + b == a;
    } else {
      SendAllAppend(x, a, b[..|b| - 1]);
      assert (a + b)[..|a + b| - 1] == a + b[..|b| - 1];
    }
  }

  lemma {:induction false} ReplayOfAfter(x: External, rows: seq<Row>, requested: int)
    requires requested <= x.cursor
    ensures SendAll(x, After(rows, requested)) == SendAll(x, rows)
    ensures requested <= SendAll(x, rows).cursor
  {
    if rows != [] {
      var init, row := rows[..|rows| - 1], rows[|rows| - 1];
      ReplayOfAfter(x, init, requested);
      if row.cursor > requested {
        assert After(rows, requested)[..|After(init, requested)|] == After(init, requested);
      } else {
        assert After(rows, requested) == After(init, requested);
      }
    }
  }

  /** The rows a subscription made after `before` is offered live while `after` happens. */
  function LiveRows(before: seq<Op>, after: seq<Op>): seq<Row> {
    if after == [] then []
    else
      var init, op := after[..|after| - 1], after[|after| - 1];
      LiveRows(before, init) + (if op.Publish? then [Row(Run(before + init).cursor + 1, op.event)] else [])
  }

  lemma OrderedSnoc(rows: seq<Row>, last: nat, e: Event)
    requires Ordered(rows, last)
    ensures Ordered(rows + [Row(last + 1, e)], last + 1)
  {
  }

  lemma CursorCounts(ops: seq<Op>, op: Op)
    ensures Run(ops + [op]).cursor == Run(ops).cursor + (if op.Publish? then 1 else 0)
  {
    assert (ops + [op])[..|ops|] == ops;
  }

  lemma {:induction false} LiveRowsFollow(before: seq<Op>, after: seq<Op>)
    ensures Ordered(Run(before).rows + LiveRows(before, after), Run(before + after).cursor)
  {
    hide Ordered, Run;
    if after == [] {
      RowsAreNumbered(before);
      assert before + after == before;
      assert Run(before).rows + [] == Run(before).rows;
    } else {
      var init, op := after[..|after| - 1], after[|after| - 1];
      LiveRowsFollow(before, init);
      CursorCounts(before + init, op);
      assert before + init + [op] == before + after;
      var rows := Run(before).rows + LiveRows(before, init);
      var all := Run(before).rows + LiveRows(before, after);
      if op.Publish? {
        OrderedSnoc(rows, Run(before + init).cursor, op.event);
        assert all == rows + [Row(Run(before + init).cursor + 1, op.event)];
      } else {
        assert all == rows;
      }
    }
  }

  /** The run is over, or waits for an answer. */
  predicate IsTerminal(e: Event) {
    e.kind in {Kind.Final, Kind.Failure, Kind.UserQuestion}
  }

  /** A beginning of the rows: all of them if none is terminal, and else up to the first terminal one. */
  predicate EndsAtTerminal(sent: seq<Row>, rows: seq<Row>) {
    && sent <= rows
    && (forall i :: 0 <= i < |sent| - 1 ==> !IsTerminal(sent[i].event))
    && (sent == rows || (sent != [] && IsTerminal(sent[|sent| - 1].event)))
  }

  lemma {:induction false} UpToEndMeans(rows: seq<Row>)
    ensures EndsAtTerminal(UpToEnd(rows), rows)
  {
    if rows != [] && !Ends(rows[0].event) {
      UpToEndMeans(rows[1..]);
      assert rows == [rows[0]] + rows[1..];
    }
  }

  /** The external stream within one bus session, whatever is published and pruned after it started:
      each row retained at the start or published later is sent once if it is past the requested cursor,
      in order, and nothing after the first terminal event. */
  lemma ExternalStreamOfRun(requested: nat, before: seq<Op>, over: bool, after: seq<Op>)
    ensures var retained, live := Run(before).rows, LiveRows(before, after);
      EndsAtTerminal(ExternalRun(requested, retained, over, live).sent,
                     After(if over then retained else retained + live, requested))
  {
    hide UpToEnd, Ordered;
    UpToEndMeans(After(if over then Run(before).rows else Run(before).rows + LiveRows(before, after), requested));
    LiveRowsFollow(before, after);
    ExternalStream(requested, Run(before).rows, over, LiveRows(before, after), Run(before + after).cursor);
  }

  lemma ExternalStream(requested: nat, retained: seq<Row>, over: bool, live: seq<Row>, last: nat)
    requires Ordered(retained + live, last)
    ensures var x := ExternalRun(requested, retained, over, live);
      x.sent == UpToEnd(After(if over then retained else retained + live, requested))
  {
    var start := External(requested, true, []);
    ReplayOfAfter(start, retained, requested);
    if over {
      assert Ordered(retained, last) by {
        assert forall i :: 0 <= i < |retained| ==> (retained + live)[i] == retained[i];
      }
      SendsPastCursorUntilEnd(requested, retained, last);
      ClosedSendsNothing(SendAll(start, retained).(open := false), live);
    } else {
      SendAllAppend(start, retained, live);
      SendsPastCursorUntilEnd(requested, retained + live, last);
    }
  }

  class ExternalSocket {
    var cursor: int
    var open: bool
    var sent: seq<Row>

    ghost function View(): External
      reads this
    {
      External(cursor, open, sent)
    }

    constructor (requested: nat)
      ensures View() == External(requested, true, [])
    {
      cursor, open, sent := requested, true, [];
    }

    method SendRow(row: Row)
      modifies this
      ensures View() == Send(old(View()), row)
    {
      if !open || row.cursor <= cursor {
        return;
      }
      sent := sent + [row];
      cursor := row.cursor;
      if Ends(row.event) {
        open := false;
      }
    }

    /** Replays the retained rows in one synchronous step; a run that is over closes the socket. */
    method Replay(bus: Bus, runId: string, over: bool)
      requires open
      modifies this
      ensures var replayed := SendAll(old(View()), After(bus.View(runId).rows, old(cursor)));
        View() == if over then replayed.(open := false) else replayed
    {
      var rows := bus.EventsAfter(runId, cursor);
      for i := 0 to |rows|
        invariant View() == SendAll(old(View()), rows[..i])
      {
        assert rows[..i + 1][..i] == rows[..i];
        SendRow(rows[i]);
      }
      assert rows[..|rows|] == rows;
      if open && over {
        open := false;
      }
    }
  }
}
