/** Mutations of one tenant's plugins take turns: each waits for the lock its caller found in the map. */
module TenantLock {
  import opened Wrappers

  datatype Stage = Waiting | Running | Settled

  /** One call of `mutateTenant`; `previous` is the lock it found and chains itself behind. */
  datatype Mutation = Mutation(tenant: string, previous: Option<nat>, stage: Stage)

  datatype State = State(mutations: seq<Mutation>, locks: map<string, nat>)

  const INITIAL := State([], map[])

  datatype Op = Call(tenant: string) | Start(mutation: nat) | Settle(mutation: nat) | Clean(mutation: nat)

  predicate MayStart(s: State, m: nat)
    requires m < |s.mutations|
  {
    && s.mutations[m].stage == Waiting
    && (s.mutations[m].previous.None?
        || (s.mutations[m].previous.value < |s.mutations| && s.mutations[s.mutations[m].previous.value].stage == Settled))
  }

  function Enters(s: State, m: nat, stage: Stage): State
    requires m < |s.mutations|
  {
    s.(mutations := s.mutations[m := s.mutations[m].(stage := stage)])
  }

  /** A mutation settles whether it succeeds or throws; its caller then removes the lock from the map,
      unless a later mutation has put its own there. A step that is not enabled changes nothing. */
  function Step(s: State, op: Op): State {
    match op
    case Call(t) =>
      State(s.mutations + [Mutation(t, if t in s.locks then Some(s.locks[t]) else None, Waiting)],
            s.locks[t := |s.mutations|])
    case Start(m) => if m < |s.mutations| && MayStart(s, m) then Enters(s, m, Running) else s
    case Settle(m) => if m < |s.mutations| && s.mutations[m].stage == Running then Enters(s, m, Settled) else s
    case Clean(m) =>
      if m < |s.mutations| && s.mutations[m].stage == Settled
         && s.mutations[m].tenant in s.locks && s.locks[s.mutations[m].tenant] == m
      then s.(locks := s.locks - {s.mutations[m].tenant})
      else s
  }

  function Run(ops: seq<Op>): State {
    if ops == [] then INITIAL else Step(Run(ops[..|ops| - 1]), ops[|ops| - 1])
  }

  predicate Precedes(s: State, a: nat, b: nat) {
    a < b < |s.mutations| && s.mutations[a].tenant == s.mutations[b].tenant
  }

  /** A mutation that has no predecessor to wait for came when all earlier ones had settled; otherwise it
      waits for the one called just before it. One that has started follows settled ones only. */
  ghost predicate InLine(s: State, m: nat)
    requires m < |s.mutations|
  {
    && (s.mutations[m].previous.Some? ==>
          && Precedes(s, s.mutations[m].previous.value, m)
          && forall a: nat :: Precedes(s, a, m) ==> a <= s.mutations[m].previous.value)
    && (s.mutations[m].previous.None? || s.mutations[m].stage != Waiting ==>
          forall a: nat :: Precedes(s, a, m) ==> s.mutations[a].stage == Settled)
  }

  /** The lock in the map belongs to the tenant's last mutation; a tenant without one is at rest. */
  ghost predicate LocksAreLast(s: State) {
    && (forall t :: t in s.locks ==> s.locks[t] < |s.mutations| && s.mutations[s.locks[t]].tenant == t)
    && (forall m: nat :: m < |s.mutations| && s.mutations[m].tenant in s.locks ==> m <= s.locks[s.mutations[m].tenant])
    && (forall m: nat :: m < |s.mutations| && s.mutations[m].tenant !in s.locks ==> s.mutations[m].stage == Settled)
  }

  ghost predicate Inv(s: State) {
    (forall m: nat :: m < |s.mutations| ==> InLine(s, m)) && LocksAreLast(s)
  }

  lemma StartFollowsSettled(s: State, m: nat)
    requires Inv(s) && m < |s.mutations| && MayStart(s, m)
    ensures forall a: nat :: Precedes(s, a, m) ==> s.mutations[a].stage == Settled
  {
    assert InLine(s, m);
    if s.mutations[m].previous.Some? {
      var k := s.mutations[m].previous.value;
      assert InLine(s, k);
      forall a: nat | Precedes(s, a, m) ensures s.mutations[a].stage == Settled {
        assert a == k || Precedes(s, a, k);
      }
    }
  }

  lemma StepKeepsInLine(s: State, op: Op, m: nat)
    requires Inv(s) && m < |Step(s, op).mutations|
    ensures InLine(Step(s, op), m)
  {
    var t := Step(s, op);
    if m < |s.mutations| {
      assert InLine(s, m);
      assert forall a: nat :: Precedes(t, a, m) <==> Precedes(s, a, m);
      if op == Start(m) && MayStart(s, m) {
        StartFollowsSettled(s, m);
      }
    } else {
      assert forall a: nat :: Precedes(t, a, m) ==> a < |s.mutations| && s.mutations[a].tenant == op.tenant;
    }
  }

  lemma StepKeepsLocks(s: State, op: Op)
    requires Inv(s)
    ensures LocksAreLast(Step(s, op))
  {
    if op.Clean? && op.mutation < |s.mutations| {
      assert InLine(s, op.mutation);
      assert forall a: nat :: a < op.mutation && s.mutations[a].tenant == s.mutations[op.mutation].tenant ==>
        Precedes(s, a, op.mutation);
    }
  }

  lemma StepKeepsInv(s: State, op: Op)
    requires Inv(s)
    ensures Inv(Step(s, op))
  {
    hide Step, InLine;
    StepKeepsLocks(s, op);
    forall m: nat | m < |Step(s, op).mutations| ensures InLine(Step(s, op), m) {
      StepKeepsInLine(s, op, m);
    }
  }

  lemma {:induction false} RunKeepsInv(ops: seq<Op>)
    ensures Inv(Run(ops))
  {
    if ops != [] {
      RunKeepsInv(ops[..|ops| - 1]);
      StepKeepsInv(Run(ops[..|ops| - 1]), ops[|ops| - 1]);
    }
  }

  /** Mutations of one tenant run in the order they were called, each after the earlier ones have settled;
      so never two at a time. */
  lemma InOrderOneAtATime(ops: seq<Op>, a: nat, b: nat)
    requires Precedes(Run(ops), a, b) && Run(ops).mutations[b].stage != Waiting
    ensures Run(ops).mutations[a].stage == Settled
  {
    RunKeepsInv(ops);
    assert InLine(Run(ops), b);
  }

  /** Nobody waits for ever: the first mutation of a tenant that has not settled can take its next step. */
  lemma FirstUnsettledMayGo(ops: seq<Op>, m: nat)
    requires m < |Run(ops).mutations| && Run(ops).mutations[m].stage != Settled
    requires forall a: nat :: Precedes(Run(ops), a, m) ==> Run(ops).mutations[a].stage == Settled
    ensures var s := Run(ops);
      var t := Step(s, if s.mutations[m].stage == Waiting then Start(m) else Settle(m));
      m < |t.mutations| && t.mutations[m].stage == if s.mutations[m].stage == Waiting then Running else Settled
  {
    RunKeepsInv(ops);
    assert InLine(Run(ops), m);
  }

  /** Clean-up never removes a lock that a waiting or running mutation of the tenant still needs. */
  lemma LockKeptWhileNeeded(ops: seq<Op>, m: nat)
    requires m < |Run(ops).mutations| && Run(ops).mutations[m].stage != Settled
    ensures Run(ops).mutations[m].tenant in Run(ops).locks
  {
    RunKeepsInv(ops);
  }

  /** Cleaning up after a mutation removes its tenant's lock exactly when it has settled and is the last one
      of the tenant. */
  lemma CleansUpExactly(ops: seq<Op>, m: nat)
    requires m < |Run(ops).mutations| && Run(ops).mutations[m].tenant in Run(ops).locks
    ensures Run(ops).mutations[m].tenant !in Step(Run(ops), Clean(m)).locks <==>
      Run(ops).mutations[m].stage == Settled && forall b: nat :: !Precedes(Run(ops), m, b)
  {
    RunKeepsInv(ops);
    var s := Run(ops);
    var last := s.locks[s.mutations[m].tenant];
    assert m <= last && (m < last ==> Precedes(s, m, last));
  }
}
