/** What the second strategy does and when, and exactly which messages survive it, said of the lists
    themselves. */
module TrimActs {
  import opened Wrappers
  import opened Messages
  import opened Lists
  import opened Compaction
  import opened Cascade
  import opened CascadeActs
  import opened TrimStrategy

  // ----- The repair -----

  /** No call of this turn is without a result anywhere in the list. */
  ghost predicate FullyAnswered(ms: seq<Message>, i: nat)
    requires i < |ms|
  {
    ms[i].role == Assistant ==> forall c :: c in ms[i].toolCalls ==> Answered(ms, c.id)
  }

  /** Some fully answered turn in front of `i` issued the call. */
  ghost predicate CalledBefore(ms: seq<Message>, i: nat, id: string)
    requires i <= |ms|
  {
    exists a: nat :: a < i && FullyAnswered(ms, a) && Issues(ms[a], id)
  }

  /** A turn survives the repair if it is fully answered, a result if such a turn in front of it issued its
      call, and everything else in any case. */
  ghost predicate Survives(ms: seq<Message>, i: nat)
    requires i < |ms|
  {
    && FullyAnswered(ms, i)
    && (ms[i].role == Tool ==>
          ms[i].toolCallId.Some? && ms[i].toolCallId.value != "" && CalledBefore(ms, i, ms[i].toolCallId.value))
  }

  ghost function Survivors(ms: seq<Message>): (r: set<nat>)
    ensures forall i: nat :: i in r <==> i < |ms| && Survives(ms, i)
  {
    set i: nat | i < |ms| && Survives(ms, i)
  }

  lemma FirstPassExactly(ms: seq<Message>, i: nat)
    requires i < |ms|
    ensures i in AnsweredTurns(ms) <==> FullyAnswered(ms, i)
  {
  }

  lemma CalledBeforeExactly(ms: seq<Message>, i: nat, id: string)
    requires i <= |ms|
    ensures CalledBefore(ms, i, id) <==> IssuedBy(Pick(ms[..i], AnsweredTurns(ms)), id)
  {
    hide AnsweredTurns, FullyAnswered, IssuedBy, Issues;
    PickIssued(ms[..i], AnsweredTurns(ms), id);
    forall a: nat | a < i ensures a in AnsweredTurns(ms) <==> FullyAnswered(ms, a) {
      FirstPassExactly(ms, a);
    }
    assert forall a: nat :: a < i ==> ms[..i][a] == ms[a];
  }

  lemma SecondPassAt(ms: seq<Message>, n: nat)
    requires n < |ms| && n in AnsweredTurns(ms)
    ensures var first, front := Pick(ms, AnsweredTurns(ms)), Pick(ms[..n], AnsweredTurns(ms));
      |front| < |first| && first[..|front|] == front && first[|front|] == ms[n]
      && (FollowsItsCall(first, |front|) <==> Survives(ms, n))
  {
    hide AnsweredTurns, FullyAnswered, CalledBefore, Pick, SeenCalls, IssuedBy;
    var keep := AnsweredTurns(ms);
    var first, front := Pick(ms, keep), Pick(ms[..n], keep);
    PickAtKept(ms, keep, n);
    FirstPassExactly(ms, n);
    if ms[n].role == Tool && ms[n].toolCallId.Some? {
      CalledBeforeExactly(ms, n, ms[n].toolCallId.value);
      assert ms[n].toolCallId.value in SeenCalls(front) <==> IssuedBy(front, ms[n].toolCallId.value);
    }
  }

  /** A kept element follows the selection from the elements in front of it. */
  lemma {:induction false} PickAtKept<T>(s: seq<T>, keep: set<nat>, n: nat)
    requires n < |s| && n in keep
    ensures |Pick(s[..n], keep)| < |Pick(s, keep)|
    ensures Pick(s, keep)[..|Pick(s[..n], keep)|] == Pick(s[..n], keep) && Pick(s, keep)[|Pick(s[..n], keep)|] == s[n]
  {
    var init := s[..|s| - 1];
    if n < |init| {
      PickAtKept(init, keep, n);
      assert init[..n] == s[..n];
    }
  }

  lemma PickNext<T>(s: seq<T>, keep: set<nat>, n: nat)
    requires n < |s|
    ensures Pick(s[..n + 1], keep) == Pick(s[..n], keep) + (if n in keep then [s[n]] else [])
  {
    assert s[..n + 1][..n] == s[..n];
  }

  lemma PickMore<T>(s: seq<T>, x: T, keep: set<nat>)
    ensures Pick(s + [x], keep) == Pick(s, keep) + (if |s| in keep then [x] else [])
    ensures Pick(s + [], keep) == Pick(s, keep)
  {
    assert (s + [x])[..|s|] == s && s + [] == s;
  }

  lemma {:induction false} SecondPassKeeps(ws: seq<Work>, n: nat)
    requires n <= |ws|
    ensures var keep := AnsweredTurns(Msgs(ws));
      Pick(Pick(ws[..n], keep), PairedResults(Msgs(Pick(ws, keep)))) == Pick(ws[..n], Survivors(Msgs(ws)))
  {
    if n > 0 {
      hide AnsweredTurns, PairedResults, Survives, Pick;
      var ms, m: nat := Msgs(ws), n - 1;
      var keep := AnsweredTurns(ms);
      var front := Pick(ws[..m], keep);
      SecondPassKeeps(ws, m);
      PickNext(ws, keep, m);
      PickNext(ws, Survivors(ms), m);
      PickMore(front, ws[m], PairedResults(Msgs(Pick(ws, keep))));
      SurvivesBothPasses(ws, m);
    }
  }

  lemma SurvivesBothPasses(ws: seq<Work>, n: nat)
    requires n < |ws|
    ensures var keep := AnsweredTurns(Msgs(ws));
      Survives(Msgs(ws), n) <==> n in keep && |Pick(ws[..n], keep)| in PairedResults(Msgs(Pick(ws, keep)))
  {
    hide AnsweredTurns, PairedResults, FollowsItsCall, Pick, Survives;
    var ms := Msgs(ws);
    var keep := AnsweredTurns(ms);
    MsgsOfPick(ws, keep);
    MsgsOfPick(ws[..n], keep);
    assert Msgs(ws[..n]) == ms[..n];
    FirstPassExactly(ms, n);
    if n in keep {
      SecondPassAt(ms, n);
      PairedMeans(Pick(ms, keep), |Pick(ms[..n], keep)|);
    } else {
      NotFullyAnswered(ms, n);
    }
  }

  lemma PairedMeans(ms: seq<Message>, i: nat)
    requires i < |ms|
    ensures i in PairedResults(ms) <==> FollowsItsCall(ms, i)
  {
  }

  lemma NotFullyAnswered(ms: seq<Message>, i: nat)
    requires i < |ms| && !FullyAnswered(ms, i)
    ensures !Survives(ms, i)
  {
  }

  /** For any list the repair keeps exactly the survivors. */
  lemma RepairKeepsSurvivors(ws: seq<Work>)
    ensures Repaired(ws) == Pick(ws, Survivors(Msgs(ws)))
  {
    SecondPassKeeps(ws, |ws|);
    assert ws[..|ws|] == ws;
  }

  // ----- The protected prefix -----

  predicate HasSummary(ms: seq<Message>) {
    exists k :: 0 <= k < |ms| && IsSummary(ms[k])
  }

  predicate IsFirstUser(ms: seq<Message>, i: nat)
    requires i < |ms|
  {
    ms[i].role == User && forall k :: 0 <= k < i ==> ms[k].role != User
  }

  /** The protected messages: with a summary the leading system messages, the first user message and the last
      summary, else the protected front. */
  ghost predicate Protected(ms: seq<Message>, i: nat)
    requires i < |ms|
  {
    if HasSummary(ms) then
      || (forall k :: 0 <= k <= i ==> LeadsSystem(ms[k]))
      || IsFirstUser(ms, i)
      || (IsSummary(ms[i]) && forall k :: i < k < |ms| ==> !IsSummary(ms[k]))
    else exists n: nat :: EndsFront(ms, n) && i < n
  }

  /** What the trimmer may choose from: the rest, and with a summary only what lies behind it. */
  ghost predicate Offered(ms: seq<Message>, i: nat)
    requires i < |ms|
  {
    !Protected(ms, i) && forall k :: i <= k < |ms| ==> !IsSummary(ms[k])
  }

  ghost function ProtectedPart(ws: seq<Work>): seq<Work> {
    Pick(ws, set i: nat | i < |ws| && Protected(Msgs(ws), i))
  }

  ghost function OfferedPart(ws: seq<Work>): seq<Work> {
    Pick(ws, set i: nat | i < |ws| && Offered(Msgs(ws), i))
  }

  lemma SummaryThere(ms: seq<Message>)
    ensures HasSummary(ms) <==> LastSummary(ms) >= 0
  {
    if LastSummary(ms) >= 0 {
      assert IsSummary(ms[LastSummary(ms)]);
    }
  }

  lemma PrefixExactly(ms: seq<Message>, i: nat)
    requires i < |ms| && LastSummary(ms) >= 0
    ensures InPrefix(ms, i) <==> Protected(ms, i)
    ensures InBody(ms, i) <==> Offered(ms, i)
  {
    hide EndsFront;
    SummaryThere(ms);
    var lead, u, l := LeadingSystem(ms), FirstUser(ms), LastSummary(ms);
    assert i >= lead ==> lead < |ms| && !LeadsSystem(ms[lead]);
    assert u >= 0 ==> ms[u].role == User;
    assert IsSummary(ms[l]);
  }

  lemma FrontExactly(ms: seq<Message>, i: nat)
    requires i < |ms| && LastSummary(ms) < 0
    ensures Protected(ms, i) <==> i < ProtectedEnd(ms)
    ensures Offered(ms, i) <==> i >= ProtectedEnd(ms)
  {
    hide EndsFront, ProtectedEnd;
    SummaryThere(ms);
    FrontIsProtected(ms, ProtectedEnd(ms));
    if n: nat :| EndsFront(ms, n) && i < n {
      FrontIsProtected(ms, n);
    }
  }

  lemma {:induction false} PickFront<T>(s: seq<T>, keep: set<nat>, n: nat)
    requires n <= |s| && forall i: nat :: i < |s| ==> (i in keep <==> i < n)
    ensures Pick(s, keep) == s[..n]
  {
    if s != [] {
      if n == |s| {
        PickAll(s, keep);
      } else {
        PickFront(s[..|s| - 1], keep, n);
        assert s[..|s| - 1][..n] == s[..n];
      }
    }
  }

  lemma {:induction false} PickBack<T>(s: seq<T>, keep: set<nat>, n: nat)
    requires n <= |s| && forall i: nat :: i < |s| ==> (i in keep <==> i >= n)
    ensures Pick(s, keep) == s[n..]
  {
    PickSplit(s, keep, n);
    PickFront(s[..n], keep, 0);
  }

  /** The split into prefix and body is that of the protected and the offered messages. */
  lemma SplitExactly(ws: seq<Work>)
    ensures ProtectedContext(ws) == Split(ProtectedPart(ws), OfferedPart(ws))
  {
    hide Protected, Offered, InPrefix, InBody, LastSummary, ProtectedEnd, Pick;
    var ms := Msgs(ws);
    var kept, offered := set i: nat | i < |ws| && Protected(ms, i), set i: nat | i < |ws| && Offered(ms, i);
    if LastSummary(ms) >= 0 {
      forall i: nat | i < |ws|
        ensures (InPrefix(ms, i) <==> Protected(ms, i)) && (InBody(ms, i) <==> Offered(ms, i))
      {
        PrefixExactly(ms, i);
      }
      assert PrefixPositions(ms) == kept && BodyPositions(ms) == offered;
    } else {
      forall i: nat | i < |ws|
        ensures (Protected(ms, i) <==> i < ProtectedEnd(ms)) && (Offered(ms, i) <==> i >= ProtectedEnd(ms))
      {
        FrontExactly(ms, i);
      }
      PickFront(ws, kept, ProtectedEnd(ms));
      PickBack(ws, offered, ProtectedEnd(ms));
    }
  }

  // ----- The strategy -----

  /** What the repair leaves of the protected messages and of those that the trimmer kept. */
  ghost function Left(b: seq<Work>, kept: set<nat>): seq<Work> {
    var pool := ProtectedPart(b) + Pick(OfferedPart(b), kept);
    Pick(pool, Survivors(Msgs(pool)))
  }

  /** Under budget the list stays. Over budget the protected messages stay where nothing is offered; where
      the trimmer fails the window acts; else what the repair leaves stays, if that is shorter. */
  ghost predicate Cuts(b: seq<Work>, env: Env, kept: Option<set<nat>>, items: seq<Work>) {
    if env.est(Msgs(b)) < env.budget then items == b
    else if OfferedPart(b) == [] then items == ProtectedPart(b)
    else if kept.None? then Windows(b, env, items)
    else items == if |Left(b, kept.value)| < |b| then Left(b, kept.value) else b
  }

  ghost predicate Reduced(b: seq<Work>, env: Env, kept: Option<set<nat>>, r: TrimOutcome) {
    r.TrimCompacted? && Cuts(b, env, kept, r.items) && r.dropped == |b| - |r.items|
  }

  /** The whole outcome: masking as in the first strategy, then L3 exactly when it is due, then the cut. */
  ghost predicate TrimActs(ws: seq<Work>, env: Env, l3: Option<string>, kept: Option<set<nat>>, r: TrimOutcome) {
    if env.est(Msgs(ws)) < env.budget then
      exists a :: Masks(ws, a, MAX_SAFE_INTEGER, env.force) && r == if a == ws then TrimUnchanged else TrimCompacted(a, 0)
    else
      exists a :: Masks(ws, a, env.keepRecent, env.force) &&
        if exists lo, hi :: L3Due(a, env, lo, hi)
        then (if l3.None? then r == TrimThrew
              else exists b, ids :: Summarised(a, env, l3.value, b, ids) && Reduced(b, env, kept, r))
        else Reduced(a, env, kept, r)
  }

  lemma CutReduces(b: seq<Work>, env: Env, kept: Option<set<nat>>)
    ensures Reduced(b, env, kept, Cut(b, env, kept))
  {
    hide ProtectedContext, ProtectedPart, OfferedPart, Windows, WindowKeeps, Survivors, Repaired, Pick;
    SplitExactly(b);
    if env.est(Msgs(b)) >= env.budget {
      WindowActs(b, env);
      if kept.Some? {
        RepairKeepsSurvivors(TrimStrategy.Trimmed(b, kept.value));
      }
    }
  }

  lemma SummaryStep(ws: seq<Work>, env: Env, l3: string)
    requires RangeOf(ws, env).Some?
    ensures exists ids :: Summarised(MaskAll(ws, env.keepRecent, env.force), env, l3, AfterSummary(ws, env, Some(l3)), ids)
  {
    hide MaskAll, L3Range, L3Due, DbIds;
    var a := MaskAll(ws, env.keepRecent, env.force);
    var range := RangeOf(ws, env).value;
    L3Matches(a, env, range.start, range.end);
    RangeOfInside(ws, env);
    assert Summarised(a, env, l3, AfterSummary(ws, env, Some(l3)), DbIds(a[range.start..range.end]));
  }

  lemma StaysUnderBudget(ws: seq<Work>, env: Env)
    ensures var a := MaskAll(ws, MAX_SAFE_INTEGER, env.force);
      && (DisplayPayload(ws, env.force).Compacted? <==> a != ws)
      && (a != ws ==> DisplayPayload(ws, env.force).items == a)
  {
    hide MaskAll, MaskedAt, Pick;
    var a := MaskAll(ws, MAX_SAFE_INTEGER, env.force);
    ChangedWorks(ws, MAX_SAFE_INTEGER, env.force);
    PickedIfChanged(ws, a);
  }

  lemma CutsOverBudget(ws: seq<Work>, env: Env, l3: Option<string>, kept: Option<set<nat>>)
    requires env.est(Msgs(ws)) >= env.budget
    ensures var a, r := MaskAll(ws, env.keepRecent, env.force), RunTrim(ws, env, l3, kept);
      if RangeOf(ws, env).None? then Reduced(a, env, kept, r)
      else if l3.None? then r == TrimThrew
      else exists b, ids :: Summarised(a, env, l3.value, b, ids) && Reduced(b, env, kept, r)
  {
    hide L3Range, MaskAll, Reduced, Summarised, Cut, Splice, L3Message, DisplayPayload, Msgs;
    var a := MaskAll(ws, env.keepRecent, env.force);
    if RangeOf(ws, env).None? {
      CutReduces(a, env, kept);
    } else if l3.Some? {
      SummaryStep(ws, env, l3.value);
      CutReduces(AfterSummary(ws, env, l3), env, kept);
    }
  }

  /** For every list, setting, provider and trimmer, the strategy does exactly that. */
  lemma StrategyActs(ws: seq<Work>, env: Env, l3: Option<string>, kept: Option<set<nat>>)
    ensures TrimActs(ws, env, l3, kept, RunTrim(ws, env, l3, kept))
  {
    hide Masks, MaskAll, DisplayPayload, L3Due, L3Range, Reduced, Summarised, Cut;
    if env.est(Msgs(ws)) < env.budget {
      MaskAllMasks(ws, MAX_SAFE_INTEGER, env.force);
      StaysUnderBudget(ws, env);
    } else {
      var a := MaskAll(ws, env.keepRecent, env.force);
      MaskAllMasks(ws, env.keepRecent, env.force);
      CutsOverBudget(ws, env, l3, kept);
      forall lo: nat, hi: nat ensures L3Due(a, env, lo, hi) <==> RangeOf(ws, env) == Some(Candidate(lo, hi)) {
        L3Matches(a, env, lo, hi);
      }
    }
  }
}
