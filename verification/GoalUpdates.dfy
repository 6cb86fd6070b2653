/** Only the latest `update_plan` round stays whole in the working list; earlier ones are superseded. */
module GoalUpdates {
  import opened Wrappers
  import opened Messages
  import opened Lists
  import opened CascadeProofs

  const PLAN_TOOL: string := "update_plan"
  const SUPERSEDED_ARGUMENTS: string := "{\"superseded\":true}"
  const SUPERSEDED_RESULT: string := "这次 Goal 更新已被后续完整 Goal 状态取代。"

  /** One answered plan update: the call `call` of the turn at `turn`, and its result. */
  datatype Pair = Pair(turn: nat, call: nat, result: nat)

  /** The last result that answers `id`, if any. */
  function LastResult(ms: seq<Message>, id: string): (r: Option<nat>)
    ensures r.Some? ==> r.value < |ms| && Answers(ms[r.value], id)
    ensures forall j :: 0 <= j < |ms| && Answers(ms[j], id) ==> r.Some? && j <= r.value
  {
    if ms == [] then None
    else if Answers(ms[|ms| - 1], id) then Some(|ms| - 1)
    else LastResult(ms[..|ms| - 1], id)
  }

  predicate IsPair(ms: seq<Message>, p: Pair) {
    && p.turn < p.result < |ms|
    && p.call < |ms[p.turn].toolCalls|
    && ms[p.turn].toolCalls[p.call].name == PLAN_TOOL
    && LastResult(ms, ms[p.turn].toolCalls[p.call].id) == Some(p.result)
  }

  function PairAt(ms: seq<Message>, turn: nat, call: nat): (r: seq<Pair>)
    requires turn < |ms| && call < |ms[turn].toolCalls|
    ensures forall p :: p in r <==> IsPair(ms, p) && p.turn == turn && p.call == call
  {
    var c := ms[turn].toolCalls[call];
    var at := LastResult(ms, c.id);
    if c.name == PLAN_TOOL && at.Some? && at.value > turn then [Pair(turn, call, at.value)] else []
  }

  function PairsOfTurn(ms: seq<Message>, turn: nat, n: nat): (r: seq<Pair>)
    requires turn < |ms| && n <= |ms[turn].toolCalls|
    ensures forall p :: p in r <==> IsPair(ms, p) && p.turn == turn && p.call < n
    ensures forall i, j :: 0 <= i < j < |r| ==> r[i] != r[j]
  {
    if n == 0 then [] else PairsOfTurn(ms, turn, n - 1) + PairAt(ms, turn, n - 1)
  }

  function PairsUpTo(ms: seq<Message>, n: nat): (r: seq<Pair>)
    requires n <= |ms|
    ensures forall p :: p in r <==> IsPair(ms, p) && p.turn < n
    ensures forall i, j :: 0 <= i < j < |r| ==> r[i] != r[j]
  {
    if n == 0 then [] else PairsUpTo(ms, n - 1) + PairsOfTurn(ms, n - 1, |ms[n - 1].toolCalls|)
  }

  /** The pair with the greatest result position; of several, the first. */
  function Latest(ps: seq<Pair>): (r: Pair)
    requires ps != []
    ensures r in ps && forall p :: p in ps ==> p.result <= r.result
  {
    if |ps| == 1 then ps[0]
    else
      var l := Latest(ps[..|ps| - 1]);
      if ps[|ps| - 1].result > l.result then ps[|ps| - 1] else l
  }

  function SupersedeCall(m: Message, call: nat): Message
    requires call < |m.toolCalls|
  {
    m.(toolCalls := m.toolCalls[call := m.toolCalls[call].(arguments := SUPERSEDED_ARGUMENTS)])
  }

  function SupersedePair(ms: seq<Message>, p: Pair): (r: seq<Message>)
    requires p.turn < |ms| && p.result < |ms| && p.turn != p.result && p.call < |ms[p.turn].toolCalls|
    ensures SameShapes(ms, r)
  {
    var out := ms[p.turn := SupersedeCall(ms[p.turn], p.call)];
    out[p.result := out[p.result].(content := Some(SUPERSEDED_RESULT))]
  }

  /** All pairs but the latest are superseded, one after another. */
  function SupersedeAll(ms: seq<Message>, ps: seq<Pair>, latest: Pair): (r: seq<Message>)
    requires forall p :: p in ps ==> IsPair(ms, p)
    ensures SameShapes(ms, r)
  {
    if ps == [] then ms
    else
      var p := ps[|ps| - 1];
      var r := SupersedeAll(ms, ps[..|ps| - 1], latest);
      assert p in ps && IsPair(ms, p) && SameShape(ms[p.turn], r[p.turn]);
      if p == latest then r else SupersedePair(r, p)
  }

  lemma SupersedeStep(ms: seq<Message>, ps: seq<Pair>, latest: Pair, i: nat)
    requires i < |ps| && forall p :: p in ps ==> IsPair(ms, p)
    ensures var p, now := ps[i], SupersedeAll(ms, ps[..i], latest);
      && p.turn < |ms| && p.result < |ms| && p.turn != p.result && p.call < |now[p.turn].toolCalls|
      && SupersedeAll(ms, ps[..i + 1], latest) == (if p == latest then now else SupersedePair(now, p))
      && |now| == |SupersedeAll(ms, ps[..i + 1], latest)| == |ms|
  {
    var p, now := ps[i], SupersedeAll(ms, ps[..i], latest);
    assert ps[..i + 1][..i] == ps[..i];
    assert p in ps && IsPair(ms, p) && SameShape(ms[p.turn], now[p.turn]);
  }

  function Pruned(ms: seq<Message>): (r: seq<Message>)
    ensures SameShapes(ms, r)
  {
    var ps := PairsUpTo(ms, |ms|);
    if |ps| < 2 then ms else SupersedeAll(ms, ps, Latest(ps))
  }

  lemma PrunedMeans(ms: seq<Message>)
    ensures var ps := PairsUpTo(ms, |ms|);
      Pruned(ms) == (if |ps| < 2 then ms else SupersedeAll(ms, ps, Latest(ps))) && |Pruned(ms)| == |ms|
  {
  }

  lemma SupersedeNone(ms: seq<Message>, latest: Pair)
    ensures SupersedeAll(ms, [], latest) == ms
  {
  }

  // ----- What pruning does to each call and each result -----

  predicate LosesCall(ps: seq<Pair>, latest: Pair, turn: nat, call: nat) {
    exists p :: p in ps && p != latest && p.turn == turn && p.call == call
  }

  predicate LosesResult(ps: seq<Pair>, latest: Pair, result: nat) {
    exists p :: p in ps && p != latest && p.result == result
  }

  lemma {:induction false} SupersededArguments(ms: seq<Message>, ps: seq<Pair>, latest: Pair, turn: nat, call: nat)
    requires forall p :: p in ps ==> IsPair(ms, p)
    requires turn < |ms| && call < |ms[turn].toolCalls|
    ensures var r := SupersedeAll(ms, ps, latest);
      && |r[turn].toolCalls| == |ms[turn].toolCalls|
      && r[turn].toolCalls[call].arguments
         == if LosesCall(ps, latest, turn, call) then SUPERSEDED_ARGUMENTS else ms[turn].toolCalls[call].arguments
  {
    var r := SupersedeAll(ms, ps, latest);
    assert SameShape(ms[turn], r[turn]);
    if ps != [] {
      var q, p := ps[..|ps| - 1], ps[|ps| - 1];
      assert ps == q + [p];
      SupersededArguments(ms, q, latest, turn, call);
      var s := SupersedeAll(ms, q, latest);
      assert p in ps && IsPair(ms, p) && SameShape(ms[p.turn], s[p.turn]);
      assert LosesCall(ps, latest, turn, call)
        <==> LosesCall(q, latest, turn, call) || (p != latest && p.turn == turn && p.call == call);
    }
  }

  lemma {:induction false} SupersededContent(ms: seq<Message>, ps: seq<Pair>, latest: Pair, k: nat)
    requires forall p :: p in ps ==> IsPair(ms, p)
    requires k < |ms|
    ensures SupersedeAll(ms, ps, latest)[k].content
      == if LosesResult(ps, latest, k) then Some(SUPERSEDED_RESULT) else ms[k].content
  {
    if ps != [] {
      var q, p := ps[..|ps| - 1], ps[|ps| - 1];
      assert ps == q + [p];
      SupersededContent(ms, q, latest, k);
      var s := SupersedeAll(ms, q, latest);
      assert p in ps && IsPair(ms, p) && SameShape(ms[p.turn], s[p.turn]);
      assert LosesResult(ps, latest, k) <==> LosesResult(q, latest, k) || (p != latest && p.result == k);
    }
  }

  /** Another plan call of the list has the id of the one at `p`. */
  predicate RepeatsId(ms: seq<Message>, p: Pair)
    requires IsPair(ms, p)
  {
    exists q :: q in PairsUpTo(ms, |ms|) && q != p
      && ms[q.turn].toolCalls[q.call].id == ms[p.turn].toolCalls[p.call].id
  }

  /** Answered plan calls share a result exactly when they share an id. */
  lemma SharedResults(ms: seq<Message>, p: Pair, q: Pair)
    requires IsPair(ms, p) && IsPair(ms, q)
    ensures p.result == q.result <==> ms[p.turn].toolCalls[p.call].id == ms[q.turn].toolCalls[q.call].id
  {
    var id, other := ms[p.turn].toolCalls[p.call].id, ms[q.turn].toolCalls[q.call].id;
    assert Answers(ms[LastResult(ms, id).value], id) && Answers(ms[LastResult(ms, other).value], other);
  }

  /** The latest plan call always survives. Its result survives exactly when no other answered plan call
      has its id. */
  lemma LatestSurvives(ms: seq<Message>)
    requires |PairsUpTo(ms, |ms|)| >= 2
    ensures var l := Latest(PairsUpTo(ms, |ms|));
      && SameShape(ms[l.turn], Pruned(ms)[l.turn])
      && Pruned(ms)[l.turn].toolCalls[l.call] == ms[l.turn].toolCalls[l.call]
      && (ms[l.result].content != Some(SUPERSEDED_RESULT) ==>
            (Pruned(ms)[l.result].content == ms[l.result].content <==> !RepeatsId(ms, l)))
  {
    var ps := PairsUpTo(ms, |ms|);
    var l := Latest(ps);
    assert IsPair(ms, l);
    SupersededArguments(ms, ps, l, l.turn, l.call);
    SupersededContent(ms, ps, l, l.result);
    assert SameShape(ms[l.turn], Pruned(ms)[l.turn]);
    assert !LosesCall(ps, l, l.turn, l.call) by {
      forall p | p in ps && p.turn == l.turn && p.call == l.call ensures p == l {
        assert IsPair(ms, p);
      }
    }
    assert LosesResult(ps, l, l.result) <==> RepeatsId(ms, l) by {
      forall p | p in ps
        ensures p.result == l.result <==> ms[p.turn].toolCalls[p.call].id == ms[l.turn].toolCalls[l.call].id
      {
        SharedResults(ms, p, l);
      }
    }
  }

  /** Two plan updates under the call id `id`, each with its result. */
  function RepeatedUpdates(id: string, first: string, second: string): seq<Message> {
    var call := ToolCall(id, PLAN_TOOL, "{}");
    [Message(0, Assistant, None, [call], None, Intact, false, []),
     Message(1, Tool, Some(first), [], Some(id), Intact, false, []),
     Message(2, Assistant, None, [call], None, Intact, false, []),
     Message(3, Tool, Some(second), [], Some(id), Intact, false, [])]
  }

  /** Where a call id is repeated, the latest result is lost whatever it says. */
  lemma RepeatedIdLosesLatest(id: string, first: string, second: string)
    requires id != "" && second != SUPERSEDED_RESULT
    ensures var ms := RepeatedUpdates(id, first, second);
      && |PairsUpTo(ms, 4)| >= 2 && Latest(PairsUpTo(ms, 4)).result == 3 && RepeatsId(ms, Latest(PairsUpTo(ms, 4)))
      && Pruned(ms)[3].content == Some(SUPERSEDED_RESULT)
  {
    var ms := RepeatedUpdates(id, first, second);
    var p, q := Pair(0, 0, 3), Pair(2, 0, 3);
    assert Answers(ms[3], id);
    assert LastResult(ms, id) == Some(3);
    assert IsPair(ms, p) && IsPair(ms, q);
    var ps := PairsUpTo(ms, 4);
    assert p in ps && q in ps;
    var l := Latest(ps);
    assert IsPair(ms, l);
    SharedResults(ms, p, l);
    assert RepeatsId(ms, l) by {
      assert (if l == p then q else p) in ps;
    }
    var other := if l == p then q else p;
    OthersSuperseded(ms, other);
  }

  /** Every other answered plan update is reduced to its marker, call and result. */
  lemma OthersSuperseded(ms: seq<Message>, p: Pair)
    requires |PairsUpTo(ms, |ms|)| >= 2
    requires IsPair(ms, p) && p != Latest(PairsUpTo(ms, |ms|))
    ensures |Pruned(ms)[p.turn].toolCalls| == |ms[p.turn].toolCalls|
    ensures Pruned(ms)[p.turn].toolCalls[p.call].arguments == SUPERSEDED_ARGUMENTS
    ensures Pruned(ms)[p.result].content == Some(SUPERSEDED_RESULT)
  {
    var ps := PairsUpTo(ms, |ms|);
    assert p in ps;
    SupersededArguments(ms, ps, Latest(ps), p.turn, p.call);
    SupersededContent(ms, ps, Latest(ps), p.result);
    assert LosesCall(ps, Latest(ps), p.turn, p.call) && LosesResult(ps, Latest(ps), p.result);
  }

  // ----- Exactly what changes -----

  predicate Earlier(p: Pair, q: Pair) {
    p.turn < q.turn || (p.turn == q.turn && p.call < q.call)
  }

  /** Its result comes last; of several with that result it is the first. */
  ghost predicate IsLatest(ms: seq<Message>, l: Pair) {
    IsPair(ms, l) && forall p :: IsPair(ms, p) && p != l ==> p.result < l.result || (p.result == l.result && Earlier(l, p))
  }

  ghost predicate IsSuperseded(ms: seq<Message>, p: Pair) {
    IsPair(ms, p) && !IsLatest(ms, p)
  }

  predicate InOrder(ps: seq<Pair>) {
    forall i, j :: 0 <= i < j < |ps| ==> Earlier(ps[i], ps[j])
  }

  lemma OrderOfTwo(a: seq<Pair>, b: seq<Pair>)
    requires InOrder(a) && InOrder(b) && forall p, q :: p in a && q in b ==> Earlier(p, q)
    ensures InOrder(a + b)
  {
    forall i, j | 0 <= i < j < |a + b| ensures Earlier((a + b)[i], (a + b)[j]) {
      if i < |a| <= j {
        assert a[i] in a && b[j - |a|] in b;
      }
    }
  }

  lemma {:induction false} TurnInOrder(ms: seq<Message>, turn: nat, n: nat)
    requires turn < |ms| && n <= |ms[turn].toolCalls|
    ensures InOrder(PairsOfTurn(ms, turn, n))
  {
    hide IsPair;
    if n > 0 {
      TurnInOrder(ms, turn, n - 1);
      OrderOfTwo(PairsOfTurn(ms, turn, n - 1), PairAt(ms, turn, n - 1));
    }
  }

  lemma {:induction false} PairsInOrder(ms: seq<Message>, n: nat)
    requires n <= |ms|
    ensures InOrder(PairsUpTo(ms, n))
  {
    hide IsPair, InOrder;
    if n == 0 {
      NothingInOrder();
    } else {
      PairsInOrder(ms, n - 1);
      TurnInOrder(ms, n - 1, |ms[n - 1].toolCalls|);
      OrderOfTwo(PairsUpTo(ms, n - 1), PairsOfTurn(ms, n - 1, |ms[n - 1].toolCalls|));
    }
  }

  lemma NothingInOrder()
    ensures InOrder([])
  {
  }

  lemma {:induction false} LatestIsFirst(ps: seq<Pair>, q: Pair)
    requires ps != [] && InOrder(ps) && q in ps && q.result == Latest(ps).result
    ensures q == Latest(ps) || Earlier(Latest(ps), q)
  {
    if |ps| > 1 {
      var init, last := ps[..|ps| - 1], ps[|ps| - 1];
      assert ps == init + [last];
      if q in init {
        LatestIsFirst(init, q);
      }
    }
  }

  lemma SupersededMeans(ms: seq<Message>, p: Pair)
    requires IsPair(ms, p)
    ensures PairsUpTo(ms, |ms|) != []
    ensures IsSuperseded(ms, p) <==> p != Latest(PairsUpTo(ms, |ms|))
  {
    var ps := PairsUpTo(ms, |ms|);
    assert p in ps;
    var l := Latest(ps);
    PairsInOrder(ms, |ms|);
    forall q | IsPair(ms, q) && q != l ensures q.result < l.result || (q.result == l.result && Earlier(l, q)) {
      assert q in ps;
      if q.result == l.result {
        LatestIsFirst(ps, q);
      }
    }
    assert IsPair(ms, l);
  }

  lemma {:induction false} OnlyPayloads(ms: seq<Message>, ps: seq<Pair>, latest: Pair, k: nat)
    requires (forall p :: p in ps ==> IsPair(ms, p)) && k < |ms|
    ensures var r := SupersedeAll(ms, ps, latest)[k];
      && r == ms[k].(content := r.content, toolCalls := r.toolCalls)
      && |r.toolCalls| == |ms[k].toolCalls|
      && forall c :: 0 <= c < |r.toolCalls| ==>
           r.toolCalls[c] == ms[k].toolCalls[c].(arguments := r.toolCalls[c].arguments)
  {
    if ps != [] {
      var p := ps[|ps| - 1];
      OnlyPayloads(ms, ps[..|ps| - 1], latest, k);
      assert p in ps && IsPair(ms, p);
      assert SameShape(ms[p.turn], SupersedeAll(ms, ps[..|ps| - 1], latest)[p.turn]);
    }
  }

  ghost predicate LosesItsResult(ms: seq<Message>, k: nat) {
    exists p :: IsSuperseded(ms, p) && p.result == k
  }

  ghost predicate LosesItsCall(ms: seq<Message>, k: nat, c: nat) {
    exists p :: IsSuperseded(ms, p) && p.turn == k && p.call == c
  }

  lemma LosesExactly(ms: seq<Message>, k: nat, c: nat)
    requires PairsUpTo(ms, |ms|) != []
    ensures var ps := PairsUpTo(ms, |ms|);
      && (LosesResult(ps, Latest(ps), k) <==> LosesItsResult(ms, k))
      && (LosesCall(ps, Latest(ps), k, c) <==> LosesItsCall(ms, k, c))
  {
    hide IsPair, IsSuperseded;
    var ps := PairsUpTo(ms, |ms|);
    forall p ensures IsSuperseded(ms, p) <==> p in ps && p != Latest(ps) {
      NotAPair(ms, p);
      if IsPair(ms, p) {
        SupersededMeans(ms, p);
      }
    }
  }

  lemma NoneLost(ms: seq<Message>, k: nat, c: nat)
    requires |PairsUpTo(ms, |ms|)| < 2
    ensures !LosesItsResult(ms, k) && !LosesItsCall(ms, k, c)
  {
    hide IsPair, IsSuperseded;
    var ps := PairsUpTo(ms, |ms|);
    forall p ensures !IsSuperseded(ms, p) {
      NotAPair(ms, p);
      if IsPair(ms, p) {
        SupersededMeans(ms, p);
        assert ps == [p];
      }
    }
  }

  lemma PrunedContent(ms: seq<Message>, k: nat)
    requires k < |ms|
    ensures Pruned(ms)[k].content == if LosesItsResult(ms, k) then Some(SUPERSEDED_RESULT) else ms[k].content
  {
    hide IsPair, LosesItsResult, LosesResult, SupersedeAll;
    var ps := PairsUpTo(ms, |ms|);
    PrunedMeans(ms);
    if |ps| < 2 {
      NoneLost(ms, k, 0);
    } else {
      LosesExactly(ms, k, 0);
      SupersededContent(ms, ps, Latest(ps), k);
    }
  }

  lemma PrunedArguments(ms: seq<Message>, k: nat, c: nat)
    requires k < |ms| && c < |ms[k].toolCalls|
    ensures c < |Pruned(ms)[k].toolCalls|
    ensures Pruned(ms)[k].toolCalls[c] == ms[k].toolCalls[c].(arguments :=
              if LosesItsCall(ms, k, c) then SUPERSEDED_ARGUMENTS else ms[k].toolCalls[c].arguments)
  {
    hide IsPair, LosesItsCall, LosesCall, SupersedeAll;
    var ps := PairsUpTo(ms, |ms|);
    PrunedMeans(ms);
    if |ps| < 2 {
      NoneLost(ms, k, c);
    } else {
      LosesExactly(ms, k, c);
      OnlyPayloads(ms, ps, Latest(ps), k);
      SupersededArguments(ms, ps, Latest(ps), k, c);
    }
  }

  /** Pruning changes the results and the call arguments of superseded plan updates, and nothing else. */
  lemma PrunedExactly(ms: seq<Message>, k: nat)
    requires k < |ms|
    ensures var r := Pruned(ms)[k];
      && r == ms[k].(content := r.content, toolCalls := r.toolCalls)
      && r.content == (if LosesItsResult(ms, k) then Some(SUPERSEDED_RESULT) else ms[k].content)
      && |r.toolCalls| == |ms[k].toolCalls|
      && forall c: nat :: c < |r.toolCalls| ==>
           r.toolCalls[c] == ms[k].toolCalls[c].(arguments :=
             if LosesItsCall(ms, k, c) then SUPERSEDED_ARGUMENTS else ms[k].toolCalls[c].arguments)
  {
    hide IsPair, LosesItsResult, LosesItsCall, SupersedeAll;
    var ps := PairsUpTo(ms, |ms|);
    PrunedMeans(ms);
    PrunedContent(ms, k);
    if |ps| >= 2 {
      OnlyPayloads(ms, ps, Latest(ps), k);
    }
    forall c: nat | c < |ms[k].toolCalls|
      ensures Pruned(ms)[k].toolCalls[c] == ms[k].toolCalls[c].(arguments :=
                if LosesItsCall(ms, k, c) then SUPERSEDED_ARGUMENTS else ms[k].toolCalls[c].arguments)
    {
      PrunedArguments(ms, k, c);
    }
  }

  lemma NotAPair(ms: seq<Message>, p: Pair)
    ensures p in PairsUpTo(ms, |ms|) <==> IsPair(ms, p)
    ensures IsSuperseded(ms, p) ==> IsPair(ms, p)
  {
  }

  /** Pruning rewrites assistant turns and results only, so it keeps rounds, answers and anchors. */
  lemma PruningKeepsRounds(ms: seq<Message>)
    requires RoundForm(ms)
    requires forall i :: 0 <= i < |ms| && ms[i].toolCalls != [] ==> ms[i].role == Assistant
    ensures KeepsRounds(ms, Pruned(ms))
  {
    var ps := PairsUpTo(ms, |ms|);
    if |ps| >= 2 {
      forall k | 0 <= k < |ms| && (ms[k].role == System || ms[k].role == User)
        ensures Pruned(ms)[k] == ms[k]
      {
        UntouchedOthers(ms, ps, Latest(ps), k);
      }
    }
    MaskingKeepsRounds(ms, Pruned(ms));
  }

  lemma {:induction false} UntouchedOthers(ms: seq<Message>, ps: seq<Pair>, latest: Pair, k: nat)
    requires forall p :: p in ps ==> IsPair(ms, p)
    requires k < |ms| && ms[k].role != Tool && ms[k].toolCalls == []
    ensures SupersedeAll(ms, ps, latest)[k] == ms[k]
  {
    if ps != [] {
      var p := ps[|ps| - 1];
      UntouchedOthers(ms, ps[..|ps| - 1], latest, k);
      assert IsPair(ms, p);
      assert SameShape(ms[p.turn], SupersedeAll(ms, ps[..|ps| - 1], latest)[p.turn]);
    }
  }
}
