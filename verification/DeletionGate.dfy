/** The gate between permanent deletions and short operations on the same resources. */
module DeletionGate {
  import opened Wrappers

  /** An empty identifier counts as absent. */
  datatype Scope = Scope(tenantId: string, spaceId: Option<string>, threadId: Option<string>)

  predicate Present(id: Option<string>) {
    id.Some? && id.value != ""
  }

  function Given(id: Option<string>): set<string> {
    if Present(id) then {id.value} else {}
  }

  /** One deletion; `scope` is the one it began with, the two sets are what it covers by now. */
  datatype Deletion = Deletion(scope: Scope, spaceIds: set<string>, threadIds: set<string>, active: bool)

  datatype Operation = Operation(scope: Scope, open: bool)

  datatype State = State(deletions: seq<Deletion>, operations: seq<Operation>)

  const INITIAL := State([], [])

  datatype Error = DeletionInProgress

  function Begun(scope: Scope): Deletion {
    Deletion(scope, Given(scope.spaceId), Given(scope.threadId), true)
  }

  predicate Blocks(d: Deletion, scope: Scope) {
    && d.scope.tenantId == scope.tenantId
    && (|| (!Present(scope.spaceId) && !Present(scope.threadId))
        || (d.spaceIds == {} && d.threadIds == {})
        || (Present(scope.spaceId) && scope.spaceId.value in d.spaceIds)
        || (Present(scope.threadId) && scope.threadId.value in d.threadIds))
  }

  predicate IsBlocked(s: State, scope: Scope) {
    exists d :: 0 <= d < |s.deletions| && s.deletions[d].active && Blocks(s.deletions[d], scope)
  }

  // ----- The calls -----

  function Begin(s: State, scope: Scope): Result<State, Error> {
    if IsBlocked(s, scope) then Err(DeletionInProgress) else Ok(s.(deletions := s.deletions + [Begun(scope)]))
  }

  function Enter(s: State, scope: Scope): Result<State, Error> {
    if IsBlocked(s, scope) then Err(DeletionInProgress) else Ok(s.(operations := s.operations + [Operation(scope, true)]))
  }

  function Widened(d: Deletion, threadIds: set<string>): Deletion {
    d.(threadIds := d.threadIds + threadIds)
  }

  function AddThreads(s: State, d: nat, threadIds: set<string>): State
    requires d < |s.deletions|
  {
    s.(deletions := s.deletions[d := Widened(s.deletions[d], threadIds)])
  }

  function FinishDeletion(s: State, d: nat): State
    requires d < |s.deletions|
  {
    s.(deletions := s.deletions[d := s.deletions[d].(active := false)])
  }

  function FinishOperation(s: State, k: nat): State
    requires k < |s.operations|
  {
    s.(operations := s.operations[k := s.operations[k].(open := false)])
  }

  /** The operations whose end `waitForOperations` awaits: those in the way at the moment of the call. */
  function Pending(s: State, d: nat): set<nat>
    requires d < |s.deletions|
  {
    set k: nat | k < |s.operations| && s.operations[k].open && Blocks(s.deletions[d], s.operations[k].scope)
  }

  // ----- Every run -----

  datatype Op =
    | DoBegin(scope: Scope)
    | DoEnter(scope: Scope)
    | DoAddThreads(deletion: nat, threadIds: set<string>)
    | DoFinishDeletion(deletion: nat)
    | DoFinishOperation(operation: nat)

  function OrSame(s: State, r: Result<State, Error>): State {
    if r.Ok? then r.value else s
  }

  /** One call; a call that throws changes nothing, and a registration nobody was given cannot be used. */
  function Step(s: State, op: Op): State {
    match op
    case DoBegin(scope) => OrSame(s, Begin(s, scope))
    case DoEnter(scope) => OrSame(s, Enter(s, scope))
    case DoAddThreads(d, threadIds) => if d < |s.deletions| then AddThreads(s, d, threadIds) else s
    case DoFinishDeletion(d) => if d < |s.deletions| then FinishDeletion(s, d) else s
    case DoFinishOperation(k) => if k < |s.operations| then FinishOperation(s, k) else s
  }

  function Run(s: State, ops: seq<Op>): State {
    if ops == [] then s else Step(Run(s, ops[..|ops| - 1]), ops[|ops| - 1])
  }

  predicate Touches(op: Op, d: nat) {
    (op.DoAddThreads? && op.deletion == d) || (op.DoFinishDeletion? && op.deletion == d)
  }

  /** An operation that was not awaited and is in the way of `d` is not open. */
  ghost predicate Clear(s: State, d: nat, pending: set<nat>)
    requires d < |s.deletions|
  {
    && s.deletions[d].active
    && forall k: nat :: k < |s.operations| && s.operations[k].open && Blocks(s.deletions[d], s.operations[k].scope) ==>
         k in pending
  }

  lemma StepKeepsClear(s: State, d: nat, pending: set<nat>, op: Op)
    requires d < |s.deletions| && Clear(s, d, pending) && !Touches(op, d)
    ensures d < |Step(s, op).deletions| && Step(s, op).deletions[d] == s.deletions[d]
    ensures Clear(Step(s, op), d, pending)
  {
    if op.DoEnter? && Blocks(s.deletions[d], op.scope) {
      assert IsBlocked(s, op.scope);
    }
  }

  lemma {:induction false} RunKeepsClear(s: State, d: nat, pending: set<nat>, ops: seq<Op>)
    requires d < |s.deletions| && Clear(s, d, pending)
    requires forall op :: op in ops ==> !Touches(op, d)
    ensures d < |Run(s, ops).deletions| && Run(s, ops).deletions[d] == s.deletions[d]
    ensures Clear(Run(s, ops), d, pending)
  {
    if ops != [] {
      RunKeepsClear(s, d, pending, ops[..|ops| - 1]);
      StepKeepsClear(Run(s, ops[..|ops| - 1]), d, pending, ops[|ops| - 1]);
    }
  }

  /** Exclusion: from the moment the awaited operations are over until the deletion finishes or its scope
      changes, no open operation is in its way, whatever else is called meanwhile. */
  lemma NoOpenOperationInTheWay(s: State, d: nat, ops: seq<Op>, k: nat)
    requires d < |s.deletions| && s.deletions[d].active
    requires forall op :: op in ops ==> !Touches(op, d)
    requires k < |Run(s, ops).operations|
    requires forall j :: j in Pending(s, d) ==> j < |Run(s, ops).operations| && !Run(s, ops).operations[j].open
    ensures Run(s, ops).operations[k].open ==> !Blocks(s.deletions[d], Run(s, ops).operations[k].scope)
  {
    RunKeepsClear(s, d, Pending(s, d), ops);
  }

  // ----- Who is kept out, told by the calls -----

  /** Call `k` began deletion `d` with this scope and was not refused. */
  predicate BeginsAt(ops: seq<Op>, k: nat, d: nat, scope: Scope) {
    && k < |ops| && ops[k] == DoBegin(scope)
    && |Run(INITIAL, ops[..k]).deletions| == d && |Run(INITIAL, ops[..k + 1]).deletions| == d + 1
  }

  /** Call `k` entered operation `o` with this scope and was not refused. */
  predicate EntersAt(ops: seq<Op>, k: nat, o: nat, scope: Scope) {
    && k < |ops| && ops[k] == DoEnter(scope)
    && |Run(INITIAL, ops[..k]).operations| == o && |Run(INITIAL, ops[..k + 1]).operations| == o + 1
  }

  predicate FinishesAt(ops: seq<Op>, k: nat, d: nat) {
    k < |ops| && ops[k] == DoFinishDeletion(d) && d < |Run(INITIAL, ops[..k]).deletions|
  }

  predicate LeavesAt(ops: seq<Op>, k: nat, o: nat) {
    k < |ops| && ops[k] == DoFinishOperation(o) && o < |Run(INITIAL, ops[..k]).operations|
  }

  predicate AddsAt(ops: seq<Op>, k: nat, d: nat, thread: string) {
    && k < |ops| && ops[k].DoAddThreads? && ops[k].deletion == d && thread in ops[k].threadIds
    && d < |Run(INITIAL, ops[..k]).deletions|
  }

  ghost predicate BegunAs(ops: seq<Op>, d: nat, scope: Scope) {
    exists k: nat :: BeginsAt(ops, k, d, scope)
  }

  ghost predicate EnteredAs(ops: seq<Op>, o: nat, scope: Scope) {
    exists k: nat :: EntersAt(ops, k, o, scope)
  }

  ghost predicate Finished(ops: seq<Op>, d: nat) {
    exists k: nat :: FinishesAt(ops, k, d)
  }

  ghost predicate Left(ops: seq<Op>, o: nat) {
    exists k: nat :: LeavesAt(ops, k, o)
  }

  ghost predicate Added(ops: seq<Op>, d: nat, thread: string) {
    exists k: nat :: AddsAt(ops, k, d, thread)
  }

  /** Deletion `d` began with this scope and has not finished. */
  ghost predicate UnderWay(ops: seq<Op>, d: nat, scope: Scope) {
    BegunAs(ops, d, scope) && !Finished(ops, d)
  }

  /** Operation `o` was entered with this scope and has not finished. */
  ghost predicate InHand(ops: seq<Op>, o: nat, scope: Scope) {
    EnteredAs(ops, o, scope) && !Left(ops, o)
  }

  ghost predicate AnyAdded(ops: seq<Op>, d: nat) {
    exists thread :: Added(ops, d, thread)
  }

  predicate NamesNothing(scope: Scope) {
    !Present(scope.spaceId) && !Present(scope.threadId)
  }

  /** Deletion `d`, begun with `begun`, concerns `scope`: they share the tenant, and one of them names no
      resource, or both name the same space or the same thread, or a call has added the thread. */
  ghost predicate Hits(ops: seq<Op>, d: nat, begun: Scope, scope: Scope) {
    && begun.tenantId == scope.tenantId
    && (|| NamesNothing(scope)
        || (NamesNothing(begun) && !AnyAdded(ops, d))
        || (Present(scope.spaceId) && scope.spaceId == begun.spaceId)
        || (Present(scope.threadId) && (scope.threadId == begun.threadId || Added(ops, d, scope.threadId.value))))
  }

  /** A deletion under way concerns the scope. */
  ghost predicate KeptOut(ops: seq<Op>, scope: Scope) {
    exists d: nat, begun: Scope :: UnderWay(ops, d, begun) && Hits(ops, d, begun, scope)
  }

  /** What a call before the last did is the same in the run without the last. */
  lemma SnocEarlier(ops: seq<Op>, op: Op, k: nat, d: nat)
    requires k < |ops|
    ensures FinishesAt(ops + [op], k, d) <==> FinishesAt(ops, k, d)
    ensures LeavesAt(ops + [op], k, d) <==> LeavesAt(ops, k, d)
    ensures forall scope :: BeginsAt(ops + [op], k, d, scope) <==> BeginsAt(ops, k, d, scope)
    ensures forall scope :: EntersAt(ops + [op], k, d, scope) <==> EntersAt(ops, k, d, scope)
    ensures forall t :: AddsAt(ops + [op], k, d, t) <==> AddsAt(ops, k, d, t)
  {
    hide Run;
    assert (ops + [op])[..k] == ops[..k];
    assert (ops + [op])[..k + 1] == ops[..k + 1];
  }

  lemma RunSnoc(ops: seq<Op>, op: Op)
    ensures (ops + [op])[..|ops|] == ops && (ops + [op])[..|ops| + 1] == ops + [op]
    ensures Run(INITIAL, ops + [op]) == Step(Run(INITIAL, ops), op)
  {
    assert (ops + [op])[..|ops + [op]| - 1] == ops;
  }

  lemma SnocBegun(ops: seq<Op>, op: Op, d: nat, scope: Scope)
    ensures BegunAs(ops + [op], d, scope) <==> BegunAs(ops, d, scope) || (op == DoBegin(scope) && |Run(INITIAL, ops).deletions| == d && |Step(Run(INITIAL, ops), op).deletions| == d + 1)
  {
    hide Run, Step;
    RunSnoc(ops, op);
    if k: nat :| BeginsAt(ops, k, d, scope) {
      SnocEarlier(ops, op, k, d);
    }
    if k: nat :| BeginsAt(ops + [op], k, d, scope) && k < |ops| {
      SnocEarlier(ops, op, k, d);
    }
    assert BeginsAt(ops + [op], |ops|, d, scope) <==> (op == DoBegin(scope) && |Run(INITIAL, ops).deletions| == d && |Step(Run(INITIAL, ops), op).deletions| == d + 1);
  }

  lemma SnocEntered(ops: seq<Op>, op: Op, d: nat, scope: Scope)
    ensures EnteredAs(ops + [op], d, scope) <==> EnteredAs(ops, d, scope) || (op == DoEnter(scope) && |Run(INITIAL, ops).operations| == d && |Step(Run(INITIAL, ops), op).operations| == d + 1)
  {
    hide Run, Step;
    RunSnoc(ops, op);
    if k: nat :| EntersAt(ops, k, d, scope) {
      SnocEarlier(ops, op, k, d);
    }
    if k: nat :| EntersAt(ops + [op], k, d, scope) && k < |ops| {
      SnocEarlier(ops, op, k, d);
    }
    assert EntersAt(ops + [op], |ops|, d, scope) <==> (op == DoEnter(scope) && |Run(INITIAL, ops).operations| == d && |Step(Run(INITIAL, ops), op).operations| == d + 1);
  }

  lemma SnocFinished(ops: seq<Op>, op: Op, d: nat)
    ensures Finished(ops + [op], d) <==> Finished(ops, d) || (op == DoFinishDeletion(d) && d < |Run(INITIAL, ops).deletions|)
  {
    hide Run, Step;
    RunSnoc(ops, op);
    if k: nat :| FinishesAt(ops, k, d) {
      SnocEarlier(ops, op, k, d);
    }
    if k: nat :| FinishesAt(ops + [op], k, d) && k < |ops| {
      SnocEarlier(ops, op, k, d);
    }
    assert FinishesAt(ops + [op], |ops|, d) <==> (op == DoFinishDeletion(d) && d < |Run(INITIAL, ops).deletions|);
  }

  lemma SnocLeft(ops: seq<Op>, op: Op, d: nat)
    ensures Left(ops + [op], d) <==> Left(ops, d) || (op == DoFinishOperation(d) && d < |Run(INITIAL, ops).operations|)
  {
    hide Run, Step;
    RunSnoc(ops, op);
    if k: nat :| LeavesAt(ops, k, d) {
      SnocEarlier(ops, op, k, d);
    }
    if k: nat :| LeavesAt(ops + [op], k, d) && k < |ops| {
      SnocEarlier(ops, op, k, d);
    }
    assert LeavesAt(ops + [op], |ops|, d) <==> (op == DoFinishOperation(d) && d < |Run(INITIAL, ops).operations|);
  }

  lemma SnocAdded(ops: seq<Op>, op: Op, d: nat, thread: string)
    ensures Added(ops + [op], d, thread) <==> Added(ops, d, thread) || (op.DoAddThreads? && op.deletion == d && thread in op.threadIds && d < |Run(INITIAL, ops).deletions|)
  {
    hide Run, Step;
    RunSnoc(ops, op);
    if k: nat :| AddsAt(ops, k, d, thread) {
      SnocEarlier(ops, op, k, d);
    }
    if k: nat :| AddsAt(ops + [op], k, d, thread) && k < |ops| {
      SnocEarlier(ops, op, k, d);
    }
    assert AddsAt(ops + [op], |ops|, d, thread) <==> (op.DoAddThreads? && op.deletion == d && thread in op.threadIds && d < |Run(INITIAL, ops).deletions|);
  }

  lemma {:induction false} BegunExactly(ops: seq<Op>, d: nat, scope: Scope)
    ensures BegunAs(ops, d, scope) <==>
      d < |Run(INITIAL, ops).deletions| && Run(INITIAL, ops).deletions[d].scope == scope
  {
    hide BegunAs;
    if ops == [] {
      NothingCalled(d, scope);
    } else {
      var init, op := ops[..|ops| - 1], ops[|ops| - 1];
      assert ops == init + [op];
      BegunExactly(init, d, scope);
      SnocBegun(init, op, d, scope);
    }
  }

  lemma {:induction false} EnteredExactly(ops: seq<Op>, o: nat, scope: Scope)
    ensures EnteredAs(ops, o, scope) <==>
      o < |Run(INITIAL, ops).operations| && Run(INITIAL, ops).operations[o].scope == scope
  {
    hide EnteredAs;
    if ops == [] {
      NothingCalled(o, scope);
    } else {
      var init, op := ops[..|ops| - 1], ops[|ops| - 1];
      assert ops == init + [op];
      EnteredExactly(init, o, scope);
      SnocEntered(init, op, o, scope);
    }
  }

  lemma NothingCalled(d: nat, scope: Scope)
    ensures !BegunAs([], d, scope) && !EnteredAs([], d, scope) && !Finished([], d) && !Left([], d)
    ensures forall thread :: !Added([], d, thread)
  {
  }

  lemma {:induction false} FinishedExactly(ops: seq<Op>, d: nat)
    ensures Finished(ops, d) <==> d < |Run(INITIAL, ops).deletions| && !Run(INITIAL, ops).deletions[d].active
  {
    hide Finished;
    if ops == [] {
      NothingCalled(d, Scope("", None, None));
    } else {
      var init, op := ops[..|ops| - 1], ops[|ops| - 1];
      assert ops == init + [op];
      FinishedExactly(init, d);
      SnocFinished(init, op, d);
    }
  }

  lemma {:induction false} LeftExactly(ops: seq<Op>, o: nat)
    ensures Left(ops, o) <==> o < |Run(INITIAL, ops).operations| && !Run(INITIAL, ops).operations[o].open
  {
    hide Left;
    if ops == [] {
      NothingCalled(o, Scope("", None, None));
    } else {
      var init, op := ops[..|ops| - 1], ops[|ops| - 1];
      assert ops == init + [op];
      LeftExactly(init, o);
      SnocLeft(init, op, o);
    }
  }

  /** A deletion covers the space it began with, and the thread it began with together with all added. */
  lemma {:induction false} CoversExactly(ops: seq<Op>, d: nat, thread: string)
    ensures Added(ops, d, thread) ==> d < |Run(INITIAL, ops).deletions|
    ensures d < |Run(INITIAL, ops).deletions| ==>
      var e := Run(INITIAL, ops).deletions[d];
      && e.spaceIds == Given(e.scope.spaceId)
      && (thread in e.threadIds <==> thread in Given(e.scope.threadId) || Added(ops, d, thread))
  {
    hide Added;
    if ops == [] {
      NothingCalled(d, Scope("", None, None));
    } else {
      var init, op := ops[..|ops| - 1], ops[|ops| - 1];
      assert ops == init + [op];
      CoversExactly(init, d, thread);
      SnocAdded(init, op, d, thread);
    }
  }

  lemma HitsIsBlocks(ops: seq<Op>, d: nat, scope: Scope)
    requires d < |Run(INITIAL, ops).deletions|
    ensures Hits(ops, d, Run(INITIAL, ops).deletions[d].scope, scope) <==> Blocks(Run(INITIAL, ops).deletions[d], scope)
  {
    hide Run, Added;
    var e := Run(INITIAL, ops).deletions[d];
    CoversExactly(ops, d, "");
    forall thread ensures thread in e.threadIds <==> thread in Given(e.scope.threadId) || Added(ops, d, thread) {
      CoversExactly(ops, d, thread);
    }
    if thread :| thread in e.threadIds {
      assert Present(e.scope.threadId) || Added(ops, d, thread);
    }
  }

  lemma KeptOutIsBlocked(ops: seq<Op>, scope: Scope)
    ensures KeptOut(ops, scope) <==> IsBlocked(Run(INITIAL, ops), scope)
  {
    hide Run, Blocks, Hits, BegunAs, Finished;
    var s := Run(INITIAL, ops);
    if d: nat, begun :| UnderWay(ops, d, begun) && Hits(ops, d, begun, scope) {
      BegunExactly(ops, d, begun);
      FinishedExactly(ops, d);
      HitsIsBlocks(ops, d, scope);
    }
    if d: nat :| d < |s.deletions| && s.deletions[d].active && Blocks(s.deletions[d], scope) {
      BegunExactly(ops, d, s.deletions[d].scope);
      FinishedExactly(ops, d);
      HitsIsBlocks(ops, d, scope);
      assert UnderWay(ops, d, s.deletions[d].scope);
    }
  }

  /** In every run, a deletion or an operation is refused exactly when a deletion that was begun and has
      not finished concerns its scope; otherwise it is registered, in progress, with that scope. */
  lemma RefusedExactly(ops: seq<Op>, scope: Scope)
    ensures var s := Run(INITIAL, ops);
      && Enter(s, scope) == (if KeptOut(ops, scope) then Err(DeletionInProgress)
                             else Ok(State(s.deletions, s.operations + [Operation(scope, true)])))
      && Begin(s, scope) == (if KeptOut(ops, scope) then Err(DeletionInProgress)
                             else Ok(State(s.deletions + [Begun(scope)], s.operations)))
  {
    KeptOutIsBlocked(ops, scope);
  }

  /** A deletion waits for exactly the operations that were entered, have not finished and that it concerns. */
  lemma PendingExactly(ops: seq<Op>, d: nat, begun: Scope, o: nat)
    requires BegunAs(ops, d, begun)
    ensures d < |Run(INITIAL, ops).deletions|
    ensures o in Pending(Run(INITIAL, ops), d) <==> exists scope :: InHand(ops, o, scope) && Hits(ops, d, begun, scope)
  {
    hide Run, Blocks, Hits, BegunAs, EnteredAs, Left;
    var s := Run(INITIAL, ops);
    BegunExactly(ops, d, begun);
    LeftExactly(ops, o);
    if scope :| InHand(ops, o, scope) && Hits(ops, d, begun, scope) {
      EnteredExactly(ops, o, scope);
      HitsIsBlocks(ops, d, scope);
    }
    if o in Pending(s, d) {
      EnteredExactly(ops, o, s.operations[o].scope);
      HitsIsBlocks(ops, d, s.operations[o].scope);
      assert InHand(ops, o, s.operations[o].scope);
    }
  }

  /** While only deletion `d` is under way, an operation is admitted exactly when it belongs to another
      tenant, or names some resource, none of which the deletion began with or was given, and the deletion
      is not one of the whole tenant without added threads. */
  lemma AdmittedExactly(ops: seq<Op>, d: nat, begun: Scope, scope: Scope)
    requires UnderWay(ops, d, begun)
    requires forall e: nat, other :: UnderWay(ops, e, other) ==> e == d
    ensures Enter(Run(INITIAL, ops), scope).Ok? <==>
      || scope.tenantId != begun.tenantId
      || (&& !NamesNothing(scope) && (NamesNothing(begun) ==> AnyAdded(ops, d))
          && (Present(scope.spaceId) ==> scope.spaceId != begun.spaceId)
          && (Present(scope.threadId) ==> scope.threadId != begun.threadId && !Added(ops, d, scope.threadId.value)))
  {
    hide Run, BegunAs, Finished, Added, AnyAdded;
    RefusedExactly(ops, scope);
    if e: nat, other :| UnderWay(ops, e, other) && Hits(ops, e, other, scope) {
      OneScope(ops, d, begun, other);
    }
    assert Hits(ops, d, begun, scope) ==> KeptOut(ops, scope);
  }

  lemma OneScope(ops: seq<Op>, d: nat, a: Scope, b: Scope)
    requires BegunAs(ops, d, a) && BegunAs(ops, d, b)
    ensures a == b
  {
    BegunExactly(ops, d, a);
    BegunExactly(ops, d, b);
  }

  lemma LastOfTwo(ops: seq<Op>, init: seq<Op>, op: Op)
    ensures ops + (init + [op]) == (ops + init) + [op]
  {
  }

  lemma {:induction false} RunSplit(ops: seq<Op>, more: seq<Op>)
    ensures Run(INITIAL, ops + more) == Run(Run(INITIAL, ops), more)
  {
    hide Step;
    if more == [] {
      assert ops + more == ops;
    } else {
      var init, op := more[..|more| - 1], more[|more| - 1];
      RunSplit(ops, init);
      LastOfTwo(ops, init, op);
      assert more == init + [op];
      RunSnoc(ops + init, op);
    }
  }

  /** Exclusion, told by the calls: once the operations that a deletion under way concerned are over, none
      that it concerns is in hand, as long as it neither finishes nor is given threads. */
  lemma NoneInHand(ops: seq<Op>, more: seq<Op>, d: nat, begun: Scope, o: nat, scope: Scope)
    requires UnderWay(ops, d, begun)
    requires forall op :: op in more ==> !Touches(op, d)
    requires forall p: nat, x :: InHand(ops, p, x) && Hits(ops, d, begun, x) ==> Left(ops + more, p)
    requires InHand(ops + more, o, scope)
    ensures !Hits(ops, d, begun, scope)
  {
    hide Run, Blocks, Hits, BegunAs, EnteredAs, Finished, Left;
    var s := Run(INITIAL, ops);
    BegunExactly(ops, d, begun);
    FinishedExactly(ops, d);
    RunSplit(ops, more);
    EnteredExactly(ops + more, o, scope);
    LeftExactly(ops + more, o);
    forall p | p in Pending(s, d) ensures p < |Run(s, more).operations| && !Run(s, more).operations[p].open {
      PendingExactly(ops, d, begun, p);
      LeftExactly(ops + more, p);
    }
    NoOpenOperationInTheWay(s, d, more, o);
    HitsIsBlocks(ops, d, scope);
  }

  // ----- Overlapping deletions -----

  lemma OverlapIsSymmetric(a: Scope, b: Scope)
    ensures Blocks(Begun(a), b) <==> Blocks(Begun(b), a)
  {
  }

  predicate WholeTenant(d: Deletion) {
    d.spaceIds == {} && d.threadIds == {}
  }

  /** Adding threads keeps everything blocked that was, exactly when the deletion already named a space
      or a thread, or nothing is added. Given threads, a deletion of a whole tenant shrinks to them. */
  lemma AddThreadsKeepsBlocking(d: Deletion, threadIds: set<string>)
    ensures (forall scope :: Blocks(d, scope) ==> Blocks(Widened(d, threadIds), scope))
       <==> (!WholeTenant(d) || threadIds == {})
  {
    if WholeTenant(d) && threadIds != {} {
      var space := Scope(d.scope.tenantId, Some("s"), None);
      assert Blocks(d, space) && !Blocks(Widened(d, threadIds), space);
    }
  }

  /** After the tenant's threads were added, the deletion of a tenant neither waits for operations on its
      spaces nor keeps new ones out. */
  lemma TenantDeletionMissesSpaces(s: State, d: nat, threadIds: set<string>, scope: Scope)
    requires d < |s.deletions| && s.deletions[d].active && WholeTenant(s.deletions[d]) && threadIds != {}
    requires forall e :: 0 <= e < |s.deletions| && s.deletions[e].active ==> e == d
    requires scope.tenantId == s.deletions[d].scope.tenantId && Present(scope.spaceId) && !Present(scope.threadId)
    ensures IsBlocked(s, scope)
    ensures var t := AddThreads(s, d, threadIds);
      && Enter(t, scope).Ok?
      && (forall k :: k in Pending(t, d) ==> t.operations[k].scope != scope)
  {
    assert Blocks(s.deletions[d], scope);
  }

  /** No call has added threads to a deletion of a whole tenant. */
  predicate Wide(s: State) {
    forall d :: 0 <= d < |s.deletions| ==>
      && Given(s.deletions[d].scope.spaceId) == s.deletions[d].spaceIds
      && Given(s.deletions[d].scope.threadId) <= s.deletions[d].threadIds
      && (WholeTenant(Begun(s.deletions[d].scope)) ==> s.deletions[d].threadIds == {})
  }

  /** Active deletions began with scopes that do not overlap. */
  predicate Apart(s: State) {
    forall i, j :: 0 <= i < |s.deletions| && 0 <= j < |s.deletions| && i != j ==>
      (s.deletions[i].active && s.deletions[j].active ==> !Blocks(Begun(s.deletions[i].scope), s.deletions[j].scope))
  }

  predicate Narrows(s: State, op: Op) {
    op.DoAddThreads? && op.deletion < |s.deletions| && op.threadIds != {} && WholeTenant(s.deletions[op.deletion])
  }

  /** No call of the run narrows a deletion. */
  predicate NeverNarrows(ops: seq<Op>) {
    forall n: nat :: n < |ops| ==> !Narrows(Run(INITIAL, ops[..n]), ops[n])
  }

  lemma BeginKeepsApart(s: State, scope: Scope)
    requires Wide(s) && Apart(s)
    ensures Apart(OrSame(s, Begin(s, scope)))
  {
    if !IsBlocked(s, scope) {
      forall i | 0 <= i < |s.deletions| && s.deletions[i].active
        ensures !Blocks(Begun(s.deletions[i].scope), scope) && !Blocks(Begun(scope), s.deletions[i].scope)
      {
        assert !Blocks(s.deletions[i], scope);
        OverlapIsSymmetric(s.deletions[i].scope, scope);
      }
    }
  }

  /** Two deletions in progress never overlap, in any run in which no deletion of a whole tenant is given
      threads. */
  lemma {:induction false} ActiveDeletionsAreApart(ops: seq<Op>)
    requires NeverNarrows(ops)
    ensures Wide(Run(INITIAL, ops)) && Apart(Run(INITIAL, ops))
  {
    if ops != [] {
      var n := |ops| - 1;
      assert NeverNarrows(ops[..n]) by {
        forall k: nat | k < n ensures !Narrows(Run(INITIAL, ops[..n][..k]), ops[..n][k]) {
          assert ops[..n][..k] == ops[..k];
        }
      }
      ActiveDeletionsAreApart(ops[..n]);
      assert !Narrows(Run(INITIAL, ops[..n]), ops[n]);
      if ops[n].DoBegin? {
        BeginKeepsApart(Run(INITIAL, ops[..n]), ops[n].scope);
      }
    }
  }

  /** With such a call, two overlapping deletions can be in progress at once. */
  lemma NarrowedTenantOverlaps(tenant: string, thread: string, space: string)
    requires space != ""
    ensures var whole, part := Scope(tenant, None, None), Scope(tenant, Some(space), None);
      var t := Run(INITIAL, [DoBegin(whole), DoAddThreads(0, {thread}), DoBegin(part)]);
      && |t.deletions| == 2 && t.deletions[0].active && t.deletions[1].active
      && Blocks(Begun(t.deletions[0].scope), t.deletions[1].scope)
  {
    var whole, part := Scope(tenant, None, None), Scope(tenant, Some(space), None);
    var ops := [DoBegin(whole), DoAddThreads(0, {thread}), DoBegin(part)];
    assert ops[..2] == [DoBegin(whole), DoAddThreads(0, {thread})];
    assert ops[..2][..1] == [DoBegin(whole)];
    var one := Run(INITIAL, ops[..1]);
    assert ops[..1] == [DoBegin(whole)] && ops[..1][..0] == [];
    assert Run(INITIAL, []) == INITIAL;
    assert one == Step(INITIAL, DoBegin(whole));
    assert !IsBlocked(INITIAL, whole);
    assert one.deletions == [Begun(whole)] && one.operations == [];
    assert Run(INITIAL, ops[..2]) == AddThreads(one, 0, {thread});
  }

  // ----- The gate as it runs -----

  class ActiveDeletion {
    const scope: Scope
    const spaceIds: set<string>
    var threadIds: set<string>

    constructor (scope: Scope)
      ensures this.scope == scope && spaceIds == Given(scope.spaceId) && threadIds == Given(scope.threadId)
    {
      this.scope, spaceIds, threadIds := scope, Given(scope.spaceId), Given(scope.threadId);
    }

    ghost function View(active: bool): Deletion
      reads this
    {
      Deletion(scope, spaceIds, threadIds, active)
    }
  }

  class ActiveOperation {
    const scope: Scope
    var finished: bool

    constructor (scope: Scope)
      ensures this.scope == scope && !finished
    {
      this.scope, finished := scope, false;
    }
  }

  function SetOf(ids: seq<string>): set<string> {
    set id | id in ids
  }

  class Gate {
    var active: set<ActiveDeletion>
    var operations: set<ActiveOperation>
    ghost var begun: seq<ActiveDeletion>
    ghost var entered: seq<ActiveOperation>
    /** The calls so far. */
    ghost var calls: seq<Op>

    ghost predicate Valid()
      reads this, begun, entered
    {
      && View() == Run(INITIAL, calls)
      && (forall d :: d in active ==> d in begun)
      && (forall o :: o in entered ==> (o in operations <==> !o.finished))
      && (forall o :: o in operations ==> o in entered)
      && (forall i, j :: 0 <= i < |begun| && 0 <= j < |begun| && begun[i] == begun[j] ==> i == j)
      && (forall i, j :: 0 <= i < |entered| && 0 <= j < |entered| && entered[i] == entered[j] ==> i == j)
    }

    ghost function View(): (s: State)
      reads this, begun
      ensures |s.deletions| == |begun| && |s.operations| == |entered|
      ensures forall i :: 0 <= i < |begun| ==> s.deletions[i] == begun[i].View(begun[i] in active)
      ensures forall i :: 0 <= i < |entered| ==> s.operations[i] == Operation(entered[i].scope, entered[i] in operations)
    {
      State(seq(|begun|, i requires 0 <= i < |begun| reads this, begun => begun[i].View(begun[i] in active)),
            seq(|entered|, i requires 0 <= i < |entered| reads this => Operation(entered[i].scope, entered[i] in operations)))
    }

    constructor ()
      ensures Valid() && calls == []
    {
      active, operations, begun, entered, calls := {}, {}, [], [], [];
    }

    static method InTheWay(d: ActiveDeletion, scope: Scope) returns (r: bool)
      ensures r == Blocks(d.View(true), scope)
    {
      if d.scope.tenantId != scope.tenantId {
        return false;
      }
      if !Present(scope.spaceId) && !Present(scope.threadId) {
        return true;
      }
      if d.spaceIds == {} && d.threadIds == {} {
        return true;
      }
      if Present(scope.spaceId) && scope.spaceId.value in d.spaceIds {
        return true;
      }
      r := Present(scope.threadId) && scope.threadId.value in d.threadIds;
    }

    method Refuses(scope: Scope) returns (r: bool)
      requires forall d :: d in active ==> d in begun
      ensures r <==> IsBlocked(View(), scope)
    {
      var todo := active;
      while todo != {}
        invariant todo <= active
        invariant forall d :: d in active - todo ==> !Blocks(d.View(true), scope)
        decreases todo
      {
        var d :| d in todo;
        r := InTheWay(d, scope);
        if r {
          ghost var i :| 0 <= i < |begun| && begun[i] == d;
          assert View().deletions[i] == d.View(true);
          return;
        }
        todo := todo - {d};
      }
      r := false;
    }

    method BeginDeletion(scope: Scope) returns (r: Result<ActiveDeletion, Error>)
      requires Valid()
      modifies this`active, this`begun, this`calls
      ensures Valid() && calls == old(calls) + [DoBegin(scope)]
      ensures r.Err? <==> KeptOut(old(calls), scope)
      ensures r.Ok? ==> begun == old(begun) + [r.value] && r.value in active
    {
      KeptOutIsBlocked(calls, scope);
      RunSnoc(calls, DoBegin(scope));
      calls := calls + [DoBegin(scope)];
      var refused := Refuses(scope);
      if refused {
        return Err(DeletionInProgress);
      }
      var d := new ActiveDeletion(scope);
      active := active + {d};
      begun := begun + [d];
      assert View().deletions == old(View()).deletions + [Begun(scope)];
      r := Ok(d);
    }

    method EnterOperation(scope: Scope) returns (r: Result<ActiveOperation, Error>)
      requires Valid()
      modifies this`operations, this`entered, this`calls
      ensures Valid() && calls == old(calls) + [DoEnter(scope)]
      ensures r.Err? <==> KeptOut(old(calls), scope)
      ensures r.Ok? ==> entered == old(entered) + [r.value] && r.value in operations
    {
      KeptOutIsBlocked(calls, scope);
      RunSnoc(calls, DoEnter(scope));
      calls := calls + [DoEnter(scope)];
      var refused := Refuses(scope);
      if refused {
        return Err(DeletionInProgress);
      }
      var o := new ActiveOperation(scope);
      operations := operations + {o};
      entered := entered + [o];
      assert View().operations == old(View()).operations + [Operation(scope, true)];
      r := Ok(o);
    }

    method AddThreadsTo(d: ActiveDeletion, threadIds: seq<string>, ghost k: nat)
      requires Valid() && k < |begun| && begun[k] == d
      modifies d`threadIds, this`calls
      ensures Valid() && calls == old(calls) + [DoAddThreads(k, SetOf(threadIds))]
    {
      RunSnoc(calls, DoAddThreads(k, SetOf(threadIds)));
      for i := 0 to |threadIds|
        modifies d`threadIds
        invariant d.threadIds == old(d.threadIds) + SetOf(threadIds[..i])
      {
        d.threadIds := d.threadIds + {threadIds[i]};
      }
      assert threadIds[..|threadIds|] == threadIds;
      assert View().deletions == AddThreads(old(View()), k, SetOf(threadIds)).deletions;
      calls := calls + [DoAddThreads(k, SetOf(threadIds))];
    }

    /** The operations to wait for. */
    method PendingOperations(d: ActiveDeletion, ghost k: nat) returns (pending: set<ActiveOperation>)
      requires Valid() && k < |begun| && begun[k] == d
      ensures forall o :: o in pending <==> o in operations && Hits(calls, k, d.scope, o.scope)
    {
      pending := {};
      var todo := operations;
      while todo != {}
        invariant todo <= operations
        invariant forall o :: o in pending <==> o in operations - todo && Blocks(View().deletions[k], o.scope)
        decreases todo
      {
        var o :| o in todo;
        var hit := InTheWay(d, o.scope);
        if hit {
          pending := pending + {o};
        }
        todo := todo - {o};
      }
      forall o | o in operations ensures o in pending <==> Hits(calls, k, d.scope, o.scope) {
        HitsIsBlocks(calls, k, o.scope);
      }
    }

    method EndDeletion(d: ActiveDeletion, ghost k: nat)
      requires Valid() && k < |begun| && begun[k] == d
      modifies this`active, this`calls
      ensures Valid() && calls == old(calls) + [DoFinishDeletion(k)]
    {
      RunSnoc(calls, DoFinishDeletion(k));
      calls := calls + [DoFinishDeletion(k)];
      active := active - {d};
      assert View().deletions == FinishDeletion(old(View()), k).deletions;
    }

    method EndOperation(o: ActiveOperation, ghost k: nat)
      requires Valid() && k < |entered| && entered[k] == o
      modifies this`operations, o`finished, this`calls
      ensures Valid() && calls == old(calls) + [DoFinishOperation(k)]
    {
      RunSnoc(calls, DoFinishOperation(k));
      calls := calls + [DoFinishOperation(k)];
      if o.finished {
        assert View().operations == FinishOperation(View(), k).operations;
        return;
      }
      o.finished := true;
      operations := operations - {o};
      assert View().operations == FinishOperation(old(View()), k).operations;
    }
  }
}
