/** The second strategy: an outside trimmer picks messages, then tool pairs are repaired. */
module TrimStrategy {
  import opened Wrappers
  import opened Messages
  import opened Lists
  import opened Compaction
  import opened Cascade
  import opened CascadeProofs

  // ----- The protected prefix -----

  datatype Split = Split(prefix: seq<Work>, body: seq<Work>)

  predicate InPrefix(ms: seq<Message>, i: nat) {
    i < LeadingSystem(ms) || i == FirstUser(ms) || i == LastSummary(ms)
  }

  function PrefixPositions(ms: seq<Message>): (r: set<nat>)
    ensures forall i: nat :: i in r <==> i < |ms| && InPrefix(ms, i)
  {
    set i: nat | i < |ms| && InPrefix(ms, i)
  }

  predicate InBody(ms: seq<Message>, i: nat) {
    i > LastSummary(ms) && i != FirstUser(ms)
  }

  function BodyPositions(ms: seq<Message>): (r: set<nat>)
    ensures forall i: nat :: i in r <==> i < |ms| && InBody(ms, i)
  {
    set i: nat | i < |ms| && InBody(ms, i)
  }

  /** With a summary the prefix is the leading system messages, the first request and the summary, and
      everything between them is given up; without one it is the list up to the first request. */
  function ProtectedContext(ws: seq<Work>): (r: Split) {
    var ms := Msgs(ws);
    if LastSummary(ms) >= 0 then
      Split(Pick(ws, PrefixPositions(ms)), Pick(ws, BodyPositions(ms)))
    else
      Split(ws[..ProtectedEnd(ms)], ws[ProtectedEnd(ms)..])
  }

  // ----- Repairing pairs -----

  function AnsweredIds(ms: seq<Message>): (r: set<string>)
    ensures forall id :: id in r <==> Answered(ms, id)
  {
    var r := set i | 0 <= i < |ms| && ms[i].role == Tool && ms[i].toolCallId.Some? && ms[i].toolCallId.value != ""
               :: ms[i].toolCallId.value;
    assert forall id :: Answered(ms, id) ==> id in r;
    r
  }

  predicate AllCallsIn(m: Message, ids: set<string>) {
    !CallsTools(m) || forall c :: c in m.toolCalls ==> c.id in ids
  }

  /** First pass: assistant turns with an unanswered call go. */
  function AnsweredTurns(ms: seq<Message>): (r: set<nat>)
    ensures forall i: nat :: i in r <==> i < |ms| && AllCallsIn(ms[i], AnsweredIds(ms))
  {
    set i: nat | i < |ms| && AllCallsIn(ms[i], AnsweredIds(ms))
  }

  function SeenCalls(ms: seq<Message>): (r: set<string>)
    ensures forall id :: id in r <==> IssuedBy(ms, id)
  {
    if ms == [] then {}
    else
      var m := ms[|ms| - 1];
      assert ms == ms[..|ms| - 1] + [m];
      SeenCalls(ms[..|ms| - 1]) + (if m.role == Assistant then IdsOf(m.toolCalls) else {})
  }

  predicate FollowsItsCall(ms: seq<Message>, i: nat)
    requires i < |ms|
  {
    ms[i].role != Tool
    || (ms[i].toolCallId.Some? && ms[i].toolCallId.value != "" && ms[i].toolCallId.value in SeenCalls(ms[..i]))
  }

  /** Second pass: results without an earlier call go. */
  function PairedResults(ms: seq<Message>): (r: set<nat>)
    ensures forall i: nat :: i in r <==> i < |ms| && FollowsItsCall(ms, i)
  {
    set i: nat | i < |ms| && FollowsItsCall(ms, i)
  }

  function Repaired(ws: seq<Work>): seq<Work> {
    var answered := Pick(ws, AnsweredTurns(Msgs(ws)));
    Pick(answered, PairedResults(Msgs(answered)))
  }

  /** The source runs the second pass as one sweep that fills a set of the calls seen so far. */
  method RepairToolPairs(ws: seq<Work>) returns (r: seq<Work>)
    ensures r == Repaired(ws)
  {
    var answered := Pick(ws, AnsweredTurns(Msgs(ws)));
    var ms := Msgs(answered);
    var keep := PairedResults(ms);
    var seen: set<string> := {};
    r := [];
    for i := 0 to |answered|
      invariant seen == SeenCalls(ms[..i])
      invariant r == Pick(answered[..i], keep)
    {
      assert ms[..i + 1][..i] == ms[..i] && answered[..i + 1][..i] == answered[..i];
      var m := answered[i].msg;
      assert m == ms[i];
      if m.role == Assistant {
        seen := seen + IdsOf(m.toolCalls);
        r := r + [answered[i]];
      } else if m.role != Tool || (m.toolCallId.Some? && m.toolCallId.value != "" && m.toolCallId.value in seen) {
        r := r + [answered[i]];
      }
    }
    assert answered[..|answered|] == answered;
  }

  // ----- Chained lists: what every selection of a round-form list still satisfies -----

  /** Behind every turn that issued `id` only results follow. */
  ghost predicate OnlyResultsAfter(ms: seq<Message>, id: string) {
    forall i, k :: 0 <= i < k < |ms| && Issues(ms[i], id) ==> ms[k].role == Tool
  }

  /** Adding messages one by one, a result closely follows its call when the call is there, and no
      call comes after its result or is issued twice. */
  ghost predicate Chained(ms: seq<Message>) {
    ms == [] || (Chained(ms[..|ms| - 1]) && Links(ms[..|ms| - 1], ms[|ms| - 1]))
  }

  ghost predicate Links(before: seq<Message>, m: Message) {
    && (m.role == Tool && m.toolCallId.Some? ==> OnlyResultsAfter(before, m.toolCallId.value))
    && forall id :: Issues(m, id) ==> !Answered(before, id) && !IssuedBy(before, id)
  }

  lemma {:induction false} RoundFormIsChained(ms: seq<Message>, n: nat)
    requires RoundForm(ms) && n <= |ms|
    ensures Chained(ms[..n])
  {
    if n > 0 {
      var before, m := ms[..n - 1], ms[n - 1];
      RoundFormIsChained(ms, n - 1);
      assert ms[..n][..n - 1] == before;
      forall id | Issues(m, id) ensures !Answered(before, id) && !IssuedBy(before, id) {
        if j: nat :| j < |before| && Answers(before[j], id) {
          IssuerOwns(ms, n - 1, j, id);
        }
      }
      if m.role == Tool {
        var o: nat :| Owns(ms, o, n - 1);
        forall i, k | 0 <= i < k < |before| && Issues(before[i], m.toolCallId.value)
          ensures before[k].role == Tool
        {
          assert Issues(ms[i], m.toolCallId.value) && i == o;
        }
      }
    }
  }

  /** In a chained list a call and its result stand in order with only results between. */
  lemma {:induction false} ChainedPair(ms: seq<Message>, i: nat, j: nat, id: string)
    requires Chained(ms) && i < |ms| && j < |ms| && Issues(ms[i], id) && Answers(ms[j], id)
    ensures i < j && forall k :: i < k < j ==> ms[k].role == Tool
  {
    var n := |ms| - 1;
    var before := ms[..n];
    if i < n && j < n {
      ChainedPair(before, i, j, id);
      assert forall k :: i < k < j ==> before[k] == ms[k];
    } else if i < n {
      assert Issues(before[i], id);
      assert forall k :: i < k < n ==> ms[k] == before[k];
    } else if j < n {
      assert false;
    }
  }

  lemma {:induction false} ChainedCallIds(ms: seq<Message>, i: nat, j: nat, id: string)
    requires Chained(ms) && i < |ms| && j < |ms| && Issues(ms[i], id) && Issues(ms[j], id)
    ensures i == j
  {
    var n := |ms| - 1;
    var before := ms[..n];
    if i < n && j < n {
      ChainedCallIds(before, i, j, id);
    } else if i < n {
      assert Issues(before[i], id) && IssuedBy(before, id);
      assert false;
    } else if j < n {
      assert Issues(before[j], id) && IssuedBy(before, id);
      assert false;
    }
  }

  /** A chained list whose results all have a call is in round form. */
  lemma ChainedToRoundForm(ms: seq<Message>)
    requires Chained(ms)
    requires forall j :: 0 <= j < |ms| && ms[j].role == Tool ==>
               ms[j].toolCallId.Some? && ms[j].toolCallId.value != "" && IssuedBy(ms, ms[j].toolCallId.value)
    ensures RoundForm(ms)
  {
    forall i, j, id | 0 <= i < |ms| && 0 <= j < |ms| && Issues(ms[i], id) && Issues(ms[j], id)
      ensures i == j
    {
      ChainedCallIds(ms, i, j, id);
    }
    forall j | 0 <= j < |ms| && ms[j].role == Tool ensures exists i: nat :: Owns(ms, i, j) {
      var id := ms[j].toolCallId.value;
      var i: nat :| i < |ms| && Issues(ms[i], id);
      ChainedPair(ms, i, j, id);
      assert Owns(ms, i, j);
    }
  }

  /** Every message of `a` is one of `b`. */
  ghost predicate Among(a: seq<Message>, b: seq<Message>) {
    forall m :: m in a ==> m in b
  }

  lemma AmongKeeps(a: seq<Message>, b: seq<Message>, id: string)
    requires Among(a, b)
    ensures IssuedBy(a, id) ==> IssuedBy(b, id)
    ensures Answered(a, id) ==> Answered(b, id)
  {
    if i :| 0 <= i < |a| && Issues(a[i], id) {
      assert a[i] in a;
      var j :| 0 <= j < |b| && b[j] == a[i];
      assert Issues(b[j], id);
    }
    if i :| 0 <= i < |a| && Answers(a[i], id) {
      assert a[i] in a;
      var j :| 0 <= j < |b| && b[j] == a[i];
      assert Answers(b[j], id);
    }
  }

  lemma PickAmong(front: seq<Message>, ms: seq<Message>, keep: set<nat>)
    ensures Among(front + Pick(ms, keep), front + ms)
  {
    forall m | m in front + Pick(ms, keep) ensures m in front + ms {
      if m in Pick(ms, keep) {
        PickMembers(ms, keep, m);
      }
    }
  }

  lemma {:induction false} PickOnlyResultsAfter(front: seq<Message>, ms: seq<Message>, keep: set<nat>, id: string)
    requires OnlyResultsAfter(front + ms, id)
    ensures OnlyResultsAfter(front + Pick(ms, keep), id)
  {
    if ms == [] {
    } else {
      var n: nat := |ms| - 1;
      var all := front + ms;
      assert all[..|all| - 1] == front + ms[..n];
      assert OnlyResultsAfter(front + ms[..n], id) by {
        assert forall i :: 0 <= i < |all| - 1 ==> all[i] == (front + ms[..n])[i];
      }
      PickOnlyResultsAfter(front, ms[..n], keep, id);
      if n in keep {
        var t := front + Pick(ms[..n], keep);
        assert front + Pick(ms, keep) == t + [ms[n]];
        PickAmong(front, ms[..n], keep);
        AmongKeeps(t, front + ms[..n], id);
        if IssuedBy(t, id) {
          var i :| 0 <= i < |front + ms[..n]| && Issues((front + ms[..n])[i], id);
          assert all[i] == (front + ms[..n])[i] && all[|all| - 1] == ms[n];
        }
        SnocOnlyResultsAfter(t, ms[n], id);
      } else {
        assert front + Pick(ms, keep) == front + Pick(ms[..n], keep);
      }
    }
  }

  lemma SnocOnlyResultsAfter(t: seq<Message>, m: Message, id: string)
    requires OnlyResultsAfter(t, id) && (IssuedBy(t, id) ==> m.role == Tool)
    ensures OnlyResultsAfter(t + [m], id)
  {
    forall i, k | 0 <= i < k < |t + [m]| && Issues((t + [m])[i], id) ensures (t + [m])[k].role == Tool {
      assert Issues(t[i], id) && IssuedBy(t, id);
    }
  }

  /** Dropping messages behind any front keeps a list chained. */
  lemma {:induction false} ChainedPick(front: seq<Message>, ms: seq<Message>, keep: set<nat>)
    requires Chained(front + ms)
    ensures Chained(front + Pick(ms, keep))
  {
    if ms != [] {
      var n: nat := |ms| - 1;
      var all := front + ms;
      var before := front + ms[..n];
      assert all[..|all| - 1] == before;
      ChainedPick(front, ms[..n], keep);
      if n in keep {
        var t := front + Pick(ms[..n], keep);
        var m := ms[n];
        assert (front + Pick(ms, keep))[..|t|] == t;
        PickAmong(front, ms[..n], keep);
        forall id | Issues(m, id) ensures !Answered(t, id) && !IssuedBy(t, id) {
          AmongKeeps(t, before, id);
        }
        if m.role == Tool && m.toolCallId.Some? {
          PickOnlyResultsAfter(front, ms[..n], keep, m.toolCallId.value);
        }
        assert front + Pick(ms, keep) == t + [m];
      } else {
        assert front + Pick(ms, keep) == front + Pick(ms[..n], keep);
      }
    }
  }

  // ----- Repair gives exact pairing -----

  /** Every call of every assistant has a result. */
  ghost predicate AllAnswered(ms: seq<Message>) {
    forall i, id :: 0 <= i < |ms| && Issues(ms[i], id) ==> Answered(ms, id)
  }

  function RepairedMsgs(ms: seq<Message>): seq<Message> {
    var answered := Pick(ms, AnsweredTurns(ms));
    Pick(answered, PairedResults(answered))
  }

  lemma MsgsOfRepaired(ws: seq<Work>)
    ensures Msgs(Repaired(ws)) == RepairedMsgs(Msgs(ws))
  {
    MsgsOfPick(ws, AnsweredTurns(Msgs(ws)));
    var answered := Pick(ws, AnsweredTurns(Msgs(ws)));
    MsgsOfPick(answered, PairedResults(Msgs(answered)));
  }

  lemma PickChained(ms: seq<Message>, keep: set<nat>)
    requires Chained(ms)
    ensures Chained(Pick(ms, keep))
  {
    assert [] + ms == ms && [] + Pick(ms, keep) == Pick(ms, keep);
    ChainedPick([], ms, keep);
  }

  /** An answer to `id` behind a turn that issued it. */
  ghost predicate HasPair(ms: seq<Message>, id: string) {
    exists a, j :: 0 <= a < j < |ms| && Issues(ms[a], id) && Answers(ms[j], id)
  }

  /** Such a pair of which both positions are kept. */
  ghost predicate HasKeptPair(ms: seq<Message>, keep: set<nat>, id: string) {
    exists a: nat, j: nat :: a < j < |ms| && a in keep && j in keep && Issues(ms[a], id) && Answers(ms[j], id)
  }

  /** A turn that issued the call is kept. */
  ghost predicate IssuedFrom(ms: seq<Message>, keep: set<nat>, id: string) {
    exists a: nat :: a < |ms| && a in keep && Issues(ms[a], id)
  }

  lemma PickIssued(ms: seq<Message>, keep: set<nat>, id: string)
    ensures IssuedBy(Pick(ms, keep), id) <==> IssuedFrom(ms, keep, id)
  {
    var out := Pick(ms, keep);
    if a :| 0 <= a < |out| && Issues(out[a], id) {
      PickMembers(ms, keep, out[a]);
    }
    if a: nat :| a < |ms| && a in keep && Issues(ms[a], id) {
      PickMembers(ms, keep, ms[a]);
      var b :| 0 <= b < |out| && out[b] == ms[a];
      assert Issues(out[b], id);
    }
  }

  lemma PairSnoc(ms: seq<Message>, m: Message, id: string)
    ensures HasPair(ms + [m], id) <==> HasPair(ms, id) || (Answers(m, id) && IssuedBy(ms, id))
  {
    var all := ms + [m];
    assert forall k :: 0 <= k < |ms| ==> all[k] == ms[k];
    if HasPair(ms, id) {
      var a, j :| 0 <= a < j < |ms| && Issues(ms[a], id) && Answers(ms[j], id);
      assert Issues(all[a], id) && Answers(all[j], id);
    }
    if Answers(m, id) && IssuedBy(ms, id) {
      var a :| 0 <= a < |ms| && Issues(ms[a], id);
      assert Issues(all[a], id) && Answers(all[|ms|], id);
    }
  }

  /** Selecting keeps the order of the pairs that are kept. */
  lemma {:induction false} PickPairs(ms: seq<Message>, keep: set<nat>, id: string)
    ensures HasPair(Pick(ms, keep), id) <==> HasKeptPair(ms, keep, id)
  {
    hide HasPair, HasKeptPair, IssuedBy, IssuedFrom, Answers;
    if ms == [] {
      NoPairs(keep, id);
    } else {
      var n: nat := |ms| - 1;
      var init := ms[..n];
      PickPairs(init, keep, id);
      PickIssued(init, keep, id);
      KeptPairSnoc(ms, keep, id);
      PairSnoc(Pick(init, keep), ms[n], id);
      assert Pick(ms, keep) == if n in keep then Pick(init, keep) + [ms[n]] else Pick(init, keep);
    }
  }

  lemma NoPairs(keep: set<nat>, id: string)
    ensures !HasPair([], id) && !HasKeptPair([], keep, id)
  {
  }

  lemma KeptPairSnoc(ms: seq<Message>, keep: set<nat>, id: string)
    requires ms != []
    ensures var n: nat := |ms| - 1;
      HasKeptPair(ms, keep, id) <==>
        || HasKeptPair(ms[..n], keep, id)
        || (n in keep && Answers(ms[n], id) && IssuedFrom(ms[..n], keep, id))
  {
    var n: nat := |ms| - 1;
    var init := ms[..n];
    if HasKeptPair(init, keep, id) {
      var a: nat, j: nat :| a < j < n && a in keep && j in keep && Issues(init[a], id) && Answers(init[j], id);
      assert Issues(ms[a], id) && Answers(ms[j], id);
    }
    if n in keep && Answers(ms[n], id) && IssuedFrom(init, keep, id) {
      var a: nat :| a < n && a in keep && Issues(init[a], id);
      assert Issues(ms[a], id);
    }
    if HasKeptPair(ms, keep, id) {
      var a: nat, j: nat :| a < j < |ms| && a in keep && j in keep && Issues(ms[a], id) && Answers(ms[j], id);
      assert Issues(init[a], id) && (j < n ==> Answers(init[j], id));
    }
  }

  /** The second pass keeps an answer to a call exactly when some answer stands behind such a call. */
  lemma SecondPassAnswers(ms: seq<Message>, id: string)
    ensures Answered(Pick(ms, PairedResults(ms)), id) <==> HasPair(ms, id)
    ensures IssuedBy(Pick(ms, PairedResults(ms)), id) <==> IssuedBy(ms, id)
  {
    hide PairedResults, Answers, Issues;
    var keep := PairedResults(ms);
    PickIssued(ms, keep, id);
    PickAnswered(ms, keep, id);
    forall j: nat | j < |ms|
      ensures Answers(ms[j], id) ==> (j in keep <==> exists a :: 0 <= a < j && Issues(ms[a], id))
      ensures Issues(ms[j], id) ==> j in keep
    {
      PairedAt(ms, j, id);
    }
  }

  lemma PairedAt(ms: seq<Message>, j: nat, id: string)
    requires j < |ms|
    ensures Answers(ms[j], id) ==> (j in PairedResults(ms) <==> exists a :: 0 <= a < j && Issues(ms[a], id))
    ensures Issues(ms[j], id) ==> j in PairedResults(ms)
  {
    hide HasCall;
    assert forall a :: 0 <= a < j ==> ms[..j][a] == ms[a];
    assert IssuedBy(ms[..j], id) <==> exists a :: 0 <= a < j && Issues(ms[a], id);
  }

  lemma PickAnswered(ms: seq<Message>, keep: set<nat>, id: string)
    ensures Answered(Pick(ms, keep), id) <==> exists j: nat :: j < |ms| && j in keep && Answers(ms[j], id)
  {
    var out := Pick(ms, keep);
    if b :| 0 <= b < |out| && Answers(out[b], id) {
      PickMembers(ms, keep, out[b]);
    }
    if j: nat :| j < |ms| && j in keep && Answers(ms[j], id) {
      PickMembers(ms, keep, ms[j]);
      var b :| 0 <= b < |out| && out[b] == ms[j];
      assert Answers(out[b], id);
    }
  }

  /** Each call of a turn whose calls are all answered has an answer behind such a turn that issued it. */
  ghost predicate AnsweredInOrder(ms: seq<Message>) {
    forall i, id :: 0 <= i < |ms| && AllCallsIn(ms[i], AnsweredIds(ms)) && Issues(ms[i], id) ==>
      HasKeptPair(ms, AnsweredTurns(ms), id)
  }

  /** For any list, exactly when the repair leaves no call without a result. */
  lemma RepairIff(ms: seq<Message>)
    ensures AllAnswered(RepairedMsgs(ms)) <==> AnsweredInOrder(ms)
  {
    hide AllCallsIn;
    var keep := AnsweredTurns(ms);
    var first := Pick(ms, keep);
    forall id
      ensures Answered(RepairedMsgs(ms), id) <==> HasKeptPair(ms, keep, id)
      ensures IssuedBy(RepairedMsgs(ms), id) <==> IssuedFrom(ms, keep, id)
    {
      SecondPassAnswers(first, id);
      PickPairs(ms, keep, id);
      PickIssued(ms, keep, id);
    }
    AllAnsweredMeans(RepairedMsgs(ms));
  }

  lemma AllAnsweredMeans(ms: seq<Message>)
    ensures AllAnswered(ms) <==> forall id :: IssuedBy(ms, id) ==> Answered(ms, id)
  {
    if forall id :: IssuedBy(ms, id) ==> Answered(ms, id) {
      forall i, id | 0 <= i < |ms| && Issues(ms[i], id) ensures Answered(ms, id) {
        assert IssuedBy(ms, id);
      }
    }
  }

  /** The other half holds for any list: every result that is left answers a call of a turn that is left. */
  lemma RepairedResultsHaveCalls(ms: seq<Message>, b: nat)
    requires b < |RepairedMsgs(ms)| && RepairedMsgs(ms)[b].role == Tool
    ensures var m := RepairedMsgs(ms)[b];
      m.toolCallId.Some? && m.toolCallId.value != "" && IssuedBy(RepairedMsgs(ms), m.toolCallId.value)
  {
    var first := Pick(ms, AnsweredTurns(ms));
    var keep := PairedResults(first);
    var m := RepairedMsgs(ms)[b];
    PickMembers(first, keep, m);
    var j: nat :| j < |first| && j in keep && first[j] == m;
    assert IssuedBy(first[..j], m.toolCallId.value);
    var a :| 0 <= a < |first[..j]| && Issues(first[..j][a], m.toolCallId.value);
    assert Issues(first[a], m.toolCallId.value);
    SecondPassAnswers(first, m.toolCallId.value);
  }

  /** Where results closely follow their calls, the repair gives exact pairing both ways. */
  lemma RepairPairsExactly(ms: seq<Message>)
    requires Chained(ms)
    ensures RoundForm(RepairedMsgs(ms)) && AllAnswered(RepairedMsgs(ms))
  {
    var first := Pick(ms, AnsweredTurns(ms));
    PickChained(ms, AnsweredTurns(ms));
    PickChained(first, PairedResults(first));
    var out := RepairedMsgs(ms);
    forall j | 0 <= j < |out| && out[j].role == Tool
      ensures out[j].toolCallId.Some? && out[j].toolCallId.value != "" && IssuedBy(out, out[j].toolCallId.value)
    {
      RepairedResultsHaveCalls(ms, j);
    }
    ChainedToRoundForm(out);
    ChainedIsAnsweredInOrder(ms);
    RepairIff(ms);
  }

  lemma ChainedIsAnsweredInOrder(ms: seq<Message>)
    requires Chained(ms)
    ensures AnsweredInOrder(ms)
  {
    forall i: nat, id | i < |ms| && AllCallsIn(ms[i], AnsweredIds(ms)) && Issues(ms[i], id)
      ensures HasKeptPair(ms, AnsweredTurns(ms), id)
    {
      assert Answered(ms, id);
      var j: nat :| j < |ms| && Answers(ms[j], id);
      ChainedPair(ms, i, j, id);
      assert AllCallsIn(ms[j], AnsweredIds(ms));
    }
  }

  /** The order matters: a result in front of its call saves the turn in the first pass and is dropped in
      the second. */
  lemma RepairNeedsOrder()
    ensures exists ms :: !AnsweredInOrder(ms) && !AllAnswered(RepairedMsgs(ms))
  {
    var result := Message(0, Tool, Some(""), [], Some("x"), Intact, false, []);
    var caller := Message(1, Assistant, None, [ToolCall("x", "t", "")], None, Intact, false, []);
    var ms := [result, caller];
    assert Answers(ms[0], "x");
    assert caller.toolCalls[0].id == "x";
    assert Issues(ms[1], "x") && AllCallsIn(ms[1], AnsweredIds(ms));
    assert !HasKeptPair(ms, AnsweredTurns(ms), "x");
    RepairIff(ms);
  }

  // ----- Any subset the trimmer keeps -----

  /** The list handed to the repair: the prefix and whatever the trimmer kept of the body. */
  function Trimmed(ws: seq<Work>, keep: set<nat>): seq<Work> {
    var s := ProtectedContext(ws);
    s.prefix + Pick(s.body, keep)
  }

  lemma {:induction false} QuietChained(front: seq<Message>, tail: seq<Message>)
    requires Chained(tail)
    requires forall m :: m in front ==> m.role == System || m.role == User
    ensures Chained(front + tail)
  {
    if tail == [] {
      assert front + tail == front;
      AllQuietChained(front);
    } else {
      var n := |tail| - 1;
      QuietChained(front, tail[..n]);
      assert (front + tail)[..|front + tail| - 1] == front + tail[..n];
      QuietLinks(front, tail[..n], tail[n]);
    }
  }

  lemma QuietLinks(front: seq<Message>, before: seq<Message>, m: Message)
    requires Links(before, m)
    requires forall x :: x in front ==> x.role == System || x.role == User
    ensures Links(front + before, m)
  {
    var all := front + before;
    assert forall i :: 0 <= i < |front| ==> all[i] in front;
    forall id | Issues(m, id) ensures !Answered(all, id) && !IssuedBy(all, id) {
      assert forall i :: |front| <= i < |all| ==> all[i] == before[i - |front|];
    }
    if m.role == Tool && m.toolCallId.Some? {
      forall i, k | 0 <= i < k < |all| && Issues(all[i], m.toolCallId.value) ensures all[k].role == Tool {
        assert Issues(before[i - |front|], m.toolCallId.value);
      }
    }
  }

  lemma {:induction false} AllQuietChained(front: seq<Message>)
    requires forall m :: m in front ==> m.role == System || m.role == User
    ensures Chained(front)
  {
    if front != [] {
      var before := front[..|front| - 1];
      assert forall m :: m in before ==> m in front;
      assert forall i :: 0 <= i < |before| ==> before[i] in before;
      AllQuietChained(before);
    }
  }

  lemma TrimmedIsChained(ws: seq<Work>, keep: set<nat>)
    requires RoundForm(Msgs(ws))
    ensures Chained(Msgs(Trimmed(ws, keep)))
  {
    var ms := Msgs(ws);
    var s := ProtectedContext(ws);
    RoundFormIsChained(ms, |ms|);
    assert ms[..|ms|] == ms;
    MsgsOfPick(s.body, keep);
    assert Msgs(Trimmed(ws, keep)) == Msgs(s.prefix) + Pick(Msgs(s.body), keep);
    if LastSummary(ms) >= 0 {
      MsgsOfPick(ws, BodyPositions(ms));
      PickChained(ms, BodyPositions(ms));
      PickChained(Msgs(s.body), keep);
      PrefixIsQuiet(ws);
      hide Chained, LastSummary, FirstUser;
      QuietChained(Msgs(s.prefix), Pick(Msgs(s.body), keep));
    } else {
      assert Msgs(s.prefix) + Msgs(s.body) == ms;
      ChainedPick(Msgs(s.prefix), Msgs(s.body), keep);
    }
  }

  lemma PrefixIsQuiet(ws: seq<Work>)
    requires LastSummary(Msgs(ws)) >= 0
    ensures forall m :: m in Msgs(ProtectedContext(ws).prefix) ==> m.role == System || m.role == User
  {
    var ms := Msgs(ws);
    MsgsOfPick(ws, PrefixPositions(ms));
    forall m | m in Msgs(ProtectedContext(ws).prefix) ensures m.role == System || m.role == User {
      PickMembers(ms, PrefixPositions(ms), m);
      var i: nat :| i < |ms| && i in PrefixPositions(ms) && ms[i] == m;
      assert InPrefix(ms, i);
    }
  }

  /** Whatever subset the outside trimmer keeps of a round-form list, the repaired result pairs calls
      and results exactly: every result follows the turn that issued its call, with only results
      between, and every call of a surviving turn has its result. */
  lemma TrimPairsExactly(ws: seq<Work>, keep: set<nat>)
    requires RoundForm(Msgs(ws))
    ensures var out := Msgs(Repaired(Trimmed(ws, keep)));
      RoundForm(out) && AllAnswered(out)
  {
    TrimmedIsChained(ws, keep);
    MsgsOfRepaired(Trimmed(ws, keep));
    RepairPairsExactly(Msgs(Trimmed(ws, keep)));
  }

  // ----- The strategy as a whole -----

  datatype TrimOutcome =
    | TrimUnchanged
    | TrimThrew
    | TrimCompacted(items: seq<Work>, dropped: int)

  /** The cut of the list that L3 left. `kept` are the body positions the outside trimmer returned, absent
      when it threw. */
  ghost function Cut(b: seq<Work>, env: Env, kept: Option<set<nat>>): (r: TrimOutcome)
    ensures r.TrimCompacted?
  {
    if env.est(Msgs(b)) < env.budget then TrimCompacted(b, 0)
    else
      var s := ProtectedContext(b);
      if s.body == [] then TrimCompacted(s.prefix, |b| - |s.prefix|)
      else if kept.None? then
        var window := Pick(b, WindowKeeps(Msgs(b), env.keepRecent));
        TrimCompacted(window, |b| - |window|)
      else
        var trimmed := Repaired(Trimmed(b, kept.value));
        if |b| - |trimmed| <= 0 then TrimCompacted(b, 0) else TrimCompacted(trimmed, |b| - |trimmed|)
  }

  /** Masking, L3 and the cut. */
  ghost function RunTrim(ws: seq<Work>, env: Env, l3: Option<string>, kept: Option<set<nat>>): TrimOutcome {
    if env.est(Msgs(ws)) < env.budget then
      var r := DisplayPayload(ws, env.force);
      if r.Compacted? then TrimCompacted(r.items, 0) else TrimUnchanged
    else if RangeOf(ws, env).Some? && l3.None? then TrimThrew
    else Cut(AfterSummary(ws, env, l3), env, kept)
  }

  lemma TrimmedMsgs(ws: seq<Work>, keep: set<nat>)
    ensures Msgs(Trimmed(ws, keep)) == Msgs(ProtectedContext(ws).prefix) + Pick(Msgs(ProtectedContext(ws).body), keep)
  {
    hide ProtectedContext;
    MsgsOfPick(ProtectedContext(ws).body, keep);
  }

  lemma PartsAmong(ws: seq<Work>)
    ensures Among(Msgs(ProtectedContext(ws).prefix), Msgs(ws)) && Among(Msgs(ProtectedContext(ws).body), Msgs(ws))
  {
    var ms := Msgs(ws);
    MsgsOfPick(ws, PrefixPositions(ms));
    MsgsOfPick(ws, BodyPositions(ms));
    SelectedAmong(ms, PrefixPositions(ms));
    SelectedAmong(ms, BodyPositions(ms));
    assert forall n: nat :: n <= |ws| ==> Among(Msgs(ws[..n]), ms) && Among(Msgs(ws[n..]), ms);
  }

  lemma SelectedAmong(ms: seq<Message>, keep: set<nat>)
    ensures Among(Pick(ms, keep), ms)
  {
    forall m | m in Pick(ms, keep) ensures m in ms {
      PickMembers(ms, keep, m);
    }
  }

  lemma TrimmedAmong(ws: seq<Work>, keep: set<nat>)
    ensures Among(Msgs(Trimmed(ws, keep)), Msgs(ws))
  {
    hide Trimmed, ProtectedContext, Msgs;
    TrimmedMsgs(ws, keep);
    PartsAmong(ws);
    var body := Msgs(ProtectedContext(ws).body);
    forall m | m in Pick(body, keep) ensures m in body {
      PickMembers(body, keep, m);
    }
  }

  lemma TrimmedAnchors(ws: seq<Work>, keep: set<nat>)
    ensures KeepsAnchors(Msgs(ws), Msgs(Trimmed(ws, keep)))
  {
    hide Trimmed, ProtectedContext, Msgs, LeadingSystem, FirstUser;
    var ms, prefix := Msgs(ws), Msgs(ProtectedContext(ws).prefix);
    var rest := Pick(Msgs(ProtectedContext(ws).body), keep);
    TrimmedMsgs(ws, keep);
    FirstRequestOfTwo(prefix, rest);
    FirstRequestIsFirstUser(ms);
    PrefixAnchors(ws);
    if FirstUser(ms) < 0 {
      TrimmedAmong(ws, keep);
      var out := Msgs(Trimmed(ws, keep));
      forall k | 0 <= k < |out| ensures out[k].role != User {
        assert out[k] in out;
      }
      NoRequest(out);
    }
  }

  lemma PrefixAnchors(ws: seq<Work>)
    ensures var ms, p := Msgs(ws), Msgs(ProtectedContext(ws).prefix);
      && LeadingSystem(ms) <= |p| && p[..LeadingSystem(ms)] == ms[..LeadingSystem(ms)]
      && (FirstUser(ms) >= 0 ==> FirstRequest(p) == FirstRequest(ms))
  {
    var ms := Msgs(ws);
    FirstRequestIsFirstUser(ms);
    if LastSummary(ms) >= 0 {
      MsgsOfPick(ws, PrefixPositions(ms));
      PickKeepsPrefix(ms, PrefixPositions(ms), LeadingSystem(ms));
      PickFirstRequest(ms, PrefixPositions(ms));
    } else {
      assert Msgs(ws[..ProtectedEnd(ms)]) == ms[..ProtectedEnd(ms)];
    }
  }

  /** Selecting all system and user messages, among others, keeps the anchors. */
  lemma PickAnchors(ms: seq<Message>, keep: set<nat>)
    requires forall i: nat :: i < |ms| && (ms[i].role == System || ms[i].role == User) ==> i in keep
    ensures KeepsAnchors(ms, Pick(ms, keep))
  {
    PickKeepsPrefix(ms, keep, LeadingSystem(ms));
    PickFirstRequest(ms, keep);
  }

  lemma AnchorsCompose(a: seq<Message>, b: seq<Message>, c: seq<Message>)
    requires KeepsAnchors(a, b) && KeepsAnchors(b, c)
    ensures KeepsAnchors(a, c)
  {
    var n := LeadingSystem(a);
    assert forall k :: 0 <= k < n ==> b[k] == b[..n][k] == a[..n][k] == a[k];
    assert c[..n] == c[..LeadingSystem(b)][..n];
    assert b[..n] == b[..LeadingSystem(b)][..n];
  }

  lemma RepairAnchors(ms: seq<Message>)
    ensures KeepsAnchors(ms, RepairedMsgs(ms))
    ensures Among(RepairedMsgs(ms), ms)
  {
    var answered := Pick(ms, AnsweredTurns(ms));
    PickAnchors(ms, AnsweredTurns(ms));
    PickAnchors(answered, PairedResults(answered));
    AnchorsCompose(ms, answered, RepairedMsgs(ms));
    forall m | m in RepairedMsgs(ms) ensures m in ms {
      PickMembers(answered, PairedResults(answered), m);
      PickMembers(ms, AnsweredTurns(ms), m);
    }
  }

  lemma RepairedTrimKeepsRounds(ws: seq<Work>, keep: set<nat>)
    requires RoundForm(Msgs(ws))
    ensures KeepsRounds(Msgs(ws), Msgs(Repaired(Trimmed(ws, keep))))
  {
    var ms, t := Msgs(ws), Msgs(Trimmed(ws, keep));
    var out := Msgs(Repaired(Trimmed(ws, keep)));
    TrimPairsExactly(ws, keep);
    MsgsOfRepaired(Trimmed(ws, keep));
    TrimmedAnchors(ws, keep);
    RepairAnchors(t);
    AnchorsCompose(ms, t, out);
    TrimmedAmong(ws, keep);
    assert Among(out, ms);
    forall a, id | 0 <= a < |out| && Issues(out[a], id) ensures IssuedBy(ms, id) {
      assert IssuedBy(out, id);
      AmongKeeps(out, ms, id);
      var i :| 0 <= i < |ms| && Issues(ms[i], id);
    }
  }

  /** A prefix with nothing behind it keeps the rounds: the body was empty. */
  lemma BarePrefixKeepsRounds(ws: seq<Work>)
    requires RoundForm(Msgs(ws)) && ProtectedContext(ws).body == []
    ensures KeepsRounds(Msgs(ws), Msgs(ProtectedContext(ws).prefix))
  {
    var ms := Msgs(ws);
    var s := ProtectedContext(ws);
    if LastSummary(ms) >= 0 {
      var p := Msgs(s.prefix);
      PrefixIsQuiet(ws);
      TrimmedAnchors(ws, {});
      assert Trimmed(ws, {}) == s.prefix;
      QuietListKeepsRounds(ms, p);
    } else {
      assert s.prefix == ws;
      SameList(ms);
    }
  }

  lemma QuietListKeepsRounds(ms: seq<Message>, p: seq<Message>)
    requires KeepsAnchors(ms, p)
    requires forall m :: m in p ==> m.role == System || m.role == User
    ensures KeepsRounds(ms, p)
  {
    hide KeepsAnchors;
    assert p + [] == p;
    QuietFrontRoundForm(p, []);
    assert forall a :: 0 <= a < |p| ==> p[a] in p;
  }

  /** The trim strategy breaks no pair either, whatever the trimmer and the provider return. */
  lemma TrimKeepsRounds(ws: seq<Work>, env: Env, l3: Option<string>, kept: Option<set<nat>>)
    requires RoundForm(Msgs(ws))
    requires RunTrim(ws, env, l3, kept).TrimCompacted?
    ensures KeepsRounds(Msgs(ws), Msgs(RunTrim(ws, env, l3, kept).items))
  {
    if env.est(Msgs(ws)) < env.budget {
      MaskAllSpares(ws, MAX_SAFE_INTEGER, env.force);
      MaskingKeepsRounds(Msgs(ws), Msgs(MaskAll(ws, MAX_SAFE_INTEGER, env.force)));
      return;
    }
    var a := MaskAll(ws, env.keepRecent, env.force);
    MaskAllSpares(ws, env.keepRecent, env.force);
    MaskingKeepsRounds(Msgs(ws), Msgs(a));
    var b := AfterSummary(ws, env, l3);
    L3KeepsRounds(a, env, if l3.Some? then SummaryMessage(env, l3.value) else SummaryMessage(env, ""));
    KeepsRoundsCompose(Msgs(ws), Msgs(a), Msgs(b));
    var out := RunTrim(ws, env, l3, kept).items;
    if out != b {
      if ProtectedContext(b).body == [] {
        BarePrefixKeepsRounds(b);
      } else if kept.None? {
        MsgsOfPick(b, WindowKeeps(Msgs(b), env.keepRecent));
        WindowKeepsRounds(Msgs(b), env.keepRecent);
      } else {
        RepairedTrimKeepsRounds(b, kept.value);
      }
      KeepsRoundsCompose(Msgs(ws), Msgs(b), Msgs(out));
    }
  }
}
