/** The invariants of compaction: pairing, anchors, and conservation of stored messages. */
module CascadeProofs {
  import opened Wrappers
  import opened Messages
  import opened Lists
  import opened Compaction
  import opened Cascade

  /** Every call of a surviving assistant that had a result still has one. */
  ghost predicate KeepsAnswers(before: seq<Message>, after: seq<Message>) {
    forall a, id :: 0 <= a < |after| && Issues(after[a], id) && Answered(before, id) ==> Answered(after, id)
  }

  ghost predicate NoNewCalls(before: seq<Message>, after: seq<Message>) {
    forall a, id :: 0 <= a < |after| && Issues(after[a], id) ==> IssuedBy(before, id)
  }

  /** The first user message of the list. */
  function FirstRequest(ms: seq<Message>): Option<Message> {
    if ms == [] then None
    else
      var p := FirstRequest(ms[..|ms| - 1]);
      if p.Some? then p else if ms[|ms| - 1].role == User then Some(ms[|ms| - 1]) else None
  }

  /** The leading system messages stay in front, in order, and the first request stays the first. */
  ghost predicate KeepsAnchors(before: seq<Message>, after: seq<Message>) {
    && LeadingSystem(before) <= |after|
    && after[..LeadingSystem(before)] == before[..LeadingSystem(before)]
    && FirstRequest(after) == FirstRequest(before)
  }

  ghost predicate KeepsRounds(before: seq<Message>, after: seq<Message>) {
    && RoundForm(after)
    && NoNewCalls(before, after)
    && KeepsAnswers(before, after)
    && KeepsAnchors(before, after)
  }

  // ----- Masking -----

  lemma ShapesKeepAnswers(a: seq<Message>, b: seq<Message>)
    requires SameShapes(a, b)
    ensures forall id :: Answered(a, id) <==> Answered(b, id)
    ensures KeepsAnswers(a, b) && NoNewCalls(a, b)
  {
    forall k, id | 0 <= k < |b| && Issues(b[k], id) ensures IssuedBy(a, id) {
      ShapeKeepsIssues(a[k], b[k], id);
    }
    forall id ensures Answered(a, id) <==> Answered(b, id) {
      if Answered(a, id) {
        var j :| 0 <= j < |a| && Answers(a[j], id);
        assert SameShape(a[j], b[j]) && Answers(b[j], id);
      }
      if Answered(b, id) {
        var j :| 0 <= j < |b| && Answers(b[j], id);
        assert SameShape(a[j], b[j]) && Answers(a[j], id);
      }
    }
  }

  /** Masking touches results and assistant turns only. */
  ghost predicate SparesOthers(a: seq<Message>, b: seq<Message>) {
    && SameShapes(a, b)
    && forall k :: 0 <= k < |a| && (a[k].role == System || a[k].role == User) ==> b[k] == a[k]
  }

  lemma {:induction false} SparesFirstRequest(a: seq<Message>, b: seq<Message>)
    requires SparesOthers(a, b)
    ensures FirstRequest(b) == FirstRequest(a)
  {
    if a != [] {
      var n := |a| - 1;
      assert SameShape(a[n], b[n]);
      assert forall k :: 0 <= k < n ==> a[..n][k] == a[k] && b[..n][k] == b[k];
      SparesFirstRequest(a[..n], b[..n]);
    }
  }

  lemma MaskingKeepsRounds(a: seq<Message>, b: seq<Message>)
    requires SparesOthers(a, b) && RoundForm(a)
    ensures KeepsRounds(a, b)
  {
    ShapeKeepsRoundForm(a, b);
    ShapesKeepAnswers(a, b);
    SparesFirstRequest(a, b);
    assert forall k :: 0 <= k < LeadingSystem(a) ==> b[k] == a[k];
  }

  lemma MaskAllSpares(ws: seq<Work>, keepRecent: int, force: set<string>)
    ensures SparesOthers(Msgs(ws), Msgs(MaskAll(ws, keepRecent, force)))
  {
  }

  // ----- The summary -----

  lemma {:induction false} FirstRequestOfTwo(a: seq<Message>, b: seq<Message>)
    ensures FirstRequest(a + b) == if FirstRequest(a).Some? then FirstRequest(a) else FirstRequest(b)
  {
    if b == [] {
      assert a + b == a;
    } else {
      FirstRequestOfTwo(a, b[..|b| - 1]);
      assert (a + b)[..|a + b| - 1] == a + b[..|b| - 1];
    }
  }

  lemma {:induction false} FirstRequestIsFirstUser(ms: seq<Message>)
    ensures FirstUser(ms) < 0 ==> FirstRequest(ms).None?
    ensures FirstUser(ms) >= 0 ==> FirstRequest(ms) == Some(ms[FirstUser(ms)])
    ensures forall n :: FirstUser(ms) < n <= |ms| && FirstUser(ms) >= 0 ==> FirstRequest(ms[..n]) == FirstRequest(ms)
  {
    var f := FirstUser(ms);
    if f < 0 {
      NoRequest(ms);
    } else {
      forall n | f < n <= |ms| ensures FirstRequest(ms[..n]) == Some(ms[f]) {
        NoRequest(ms[..f]);
        assert ms[..n] == ms[..f] + ([ms[f]] + ms[f + 1..n]);
        FirstRequestOfTwo(ms[..f], [ms[f]] + ms[f + 1..n]);
        FirstRequestOfTwo([ms[f]], ms[f + 1..n]);
        assert [ms[f]][..0] == [];
      }
      assert ms[..|ms|] == ms;
    }
  }

  lemma {:induction false} NoRequest(ms: seq<Message>)
    requires forall k :: 0 <= k < |ms| ==> ms[k].role != User
    ensures FirstRequest(ms).None?
  {
    if ms != [] {
      NoRequest(ms[..|ms| - 1]);
    }
  }

  /** Replacing a range that splits no pair by one summary keeps the rounds around it. */
  lemma SpliceKeepsRounds(ms: seq<Message>, keepRecent: int, summary: Message)
    requires RoundForm(ms) && SummaryRange(ms, keepRecent).Some?
    requires summary.role == System
    ensures var c := SummaryRange(ms, keepRecent).value;
      KeepsRounds(ms, SpliceMsgs(ms, c, summary))
  {
    hide SummaryRange, RoundForm, KeepsAnswers, NoNewCalls, KeepsAnchors, SpliceMsgs, SplitsNothing;
    var c := SummaryRange(ms, keepRecent).value;
    SummaryRangeSplitsNothing(ms, keepRecent);
    ProtectedEndIsQuiet(ms);
    SpliceRoundForm(ms, c, summary);
    SpliceAnswers(ms, c, summary);
    SpliceAnchors(ms, c, summary);
  }

  lemma ProtectedEndIsQuiet(ms: seq<Message>)
    ensures ProtectedEnd(ms) > 0 ==> ms[ProtectedEnd(ms) - 1].role == User || ms[ProtectedEnd(ms) - 1].role == System
  {
  }

  lemma SpliceAnchors(ms: seq<Message>, c: Candidate, summary: Message)
    requires c.start == ProtectedEnd(ms) && c.start <= c.end <= |ms| && summary.role == System
    ensures KeepsAnchors(ms, SpliceMsgs(ms, c, summary))
  {
    hide LeadingSystem, FirstRequest, SpliceMsgs, ProtectedEnd;
    SpliceFirstRequest(ms, c, summary);
    LeadBeforeRequest(ms);
    SpliceKeepsFront(ms, c, summary, LeadingSystem(ms));
  }

  lemma SpliceKeepsFront(ms: seq<Message>, c: Candidate, summary: Message, n: nat)
    requires n <= c.start <= c.end <= |ms|
    ensures SpliceMsgs(ms, c, summary)[..n] == ms[..n]
  {
  }

  lemma FrontHoldsRequest(ms: seq<Message>)
    requires FirstUser(ms) >= 0
    ensures FirstRequest(ms[..FirstUser(ms) + 1]) == FirstRequest(ms) && FirstRequest(ms).Some?
  {
    FirstRequestIsFirstUser(ms);
  }

  lemma PartsWithoutRequest(ms: seq<Message>, lo: nat, hi: nat, summary: Message)
    requires FirstUser(ms) < 0 && lo <= hi <= |ms| && summary.role == System
    ensures FirstRequest(ms).None? && FirstRequest(ms[..lo]).None? && FirstRequest([summary] + ms[hi..]).None?
  {
    NoRequest(ms);
    NoRequest(ms[..lo]);
    NoRequest([summary] + ms[hi..]);
  }

  lemma SpliceFirstRequest(ms: seq<Message>, c: Candidate, summary: Message)
    requires c.start == ProtectedEnd(ms) && c.start <= c.end <= |ms| && summary.role == System
    ensures FirstRequest(SpliceMsgs(ms, c, summary)) == FirstRequest(ms)
  {
    hide FirstRequest, FirstUser, LeadingSystem, SpliceMsgs;
    var front, tail := ms[..c.start], [summary] + ms[c.end..];
    SpliceMeans(ms, c, summary);
    assert SpliceMsgs(ms, c, summary) == front + tail;
    FirstRequestOfTwo(front, tail);
    if FirstUser(ms) < 0 {
      PartsWithoutRequest(ms, c.start, c.end, summary);
    } else {
      FrontHoldsRequest(ms);
    }
  }

  lemma LeadBeforeRequest(ms: seq<Message>)
    ensures LeadingSystem(ms) <= ProtectedEnd(ms)
  {
    assert forall k :: 0 <= k < LeadingSystem(ms) ==> ms[k].role == System;
  }

  ghost predicate QuietCut(ms: seq<Message>, c: Candidate) {
    && c.start <= c.end <= |ms|
    && (c.start > 0 ==> ms[c.start - 1].role == User || ms[c.start - 1].role == System)
    && (c.end < |ms| ==> ms[c.end].role != Tool)
  }

  lemma SpliceRoundForm(ms: seq<Message>, c: Candidate, summary: Message)
    requires RoundForm(ms) && QuietCut(ms, c) && summary.role == System
    ensures RoundForm(SpliceMsgs(ms, c, summary))
  {
    hide RoundForm, DistinctCallIds, SpliceMsgs;
    var front, tail := ms[..c.start] + [summary], ms[c.end..];
    SuffixRoundForm(ms, c.end);
    FrontRoundForm(ms, c.start, summary);
    SpliceCallIds(ms, c, summary);
    SpliceMeans(ms, c, summary);
    JoinRoundForm(front, tail);
  }

  lemma SpliceMeans(ms: seq<Message>, c: Candidate, summary: Message)
    requires c.start <= c.end <= |ms|
    ensures SpliceMsgs(ms, c, summary) == ms[..c.start] + [summary] + ms[c.end..]
  {
  }

  lemma SpliceCallIds(ms: seq<Message>, c: Candidate, summary: Message)
    requires RoundForm(ms) && c.start <= c.end <= |ms| && summary.role == System
    ensures DistinctCallIds(SpliceMsgs(ms, c, summary))
  {
    hide SpliceMsgs;
    var out := SpliceMsgs(ms, c, summary);
    SpliceEntries(ms, c, summary);
    forall i, j, id | 0 <= i < |out| && 0 <= j < |out| && Issues(out[i], id) && Issues(out[j], id) ensures i == j {
      assert out[i] == ms[Origin(c, i)] && out[j] == ms[Origin(c, j)];
    }
  }

  lemma FrontRoundForm(ms: seq<Message>, start: nat, summary: Message)
    requires RoundForm(ms) && start <= |ms| && summary.role == System
    ensures RoundForm(ms[..start] + [summary])
  {
    var front := ms[..start] + [summary];
    forall j | 0 <= j < |front| && front[j].role == Tool ensures exists i: nat :: Owns(front, i, j) {
      assert front[j] == ms[j];
      var i: nat :| Owns(ms, i, j);
      assert forall k :: i <= k < j ==> front[k] == ms[k];
      assert Owns(front, i, j);
    }
  }

  /** In round form the assistant that issued an answered call owns the result. */
  lemma IssuerOwns(ms: seq<Message>, i: nat, j: nat, id: string)
    requires RoundForm(ms) && i < |ms| && j < |ms| && Issues(ms[i], id) && Answers(ms[j], id)
    ensures Owns(ms, i, j)
  {
    var k: nat :| Owns(ms, k, j);
    assert k == i;
  }

  /** Where an entry of the spliced list other than the summary came from. */
  function Origin(c: Candidate, a: nat): int {
    if a < c.start then a else c.end + (a - c.start - 1)
  }

  function SpliceMsgs(ms: seq<Message>, c: Candidate, summary: Message): (r: seq<Message>)
    requires c.start <= c.end <= |ms|
    ensures |r| == |ms| - (c.end - c.start) + 1
  {
    ms[..c.start] + [summary] + ms[c.end..]
  }

  lemma SpliceEntries(ms: seq<Message>, c: Candidate, summary: Message)
    requires c.start <= c.end <= |ms|
    ensures var r := SpliceMsgs(ms, c, summary);
      r[c.start] == summary && forall a :: 0 <= a < |r| && a != c.start ==> r[a] == ms[Origin(c, a)]
  {
  }

  lemma SpliceAnswer(ms: seq<Message>, c: Candidate, summary: Message, a: nat, id: string)
    requires RoundForm(ms) && QuietCut(ms, c)
    requires a < |SpliceMsgs(ms, c, summary)| && a != c.start
    requires Issues(SpliceMsgs(ms, c, summary)[a], id) && Answered(ms, id)
    ensures Answered(SpliceMsgs(ms, c, summary), id)
  {
    hide RoundForm, SpliceMsgs;
    SpliceEntries(ms, c, summary);
    var i := Origin(c, a);
    var j: nat :| j < |ms| && Answers(ms[j], id);
    IssuerOwns(ms, i, j, id);
    var b := if j < c.start then j else c.start + 1 + (j - c.end);
    assert j < c.start || c.end <= j;
    assert Answers(SpliceMsgs(ms, c, summary)[b], id);
  }

  lemma SpliceAnswers(ms: seq<Message>, c: Candidate, summary: Message)
    requires RoundForm(ms) && QuietCut(ms, c) && summary.role == System
    ensures KeepsAnswers(ms, SpliceMsgs(ms, c, summary))
    ensures NoNewCalls(ms, SpliceMsgs(ms, c, summary))
  {
    hide SpliceMsgs;
    var out := SpliceMsgs(ms, c, summary);
    SpliceEntries(ms, c, summary);
    forall a, id | 0 <= a < |out| && Issues(out[a], id)
      ensures IssuedBy(ms, id) && (Answered(ms, id) ==> Answered(out, id))
    {
      assert out[a] == ms[Origin(c, a)];
      if Answered(ms, id) {
        SpliceAnswer(ms, c, summary, a, id);
      }
    }
  }

  // ----- The window -----

  lemma {:induction false} PickFirstRequest(ms: seq<Message>, keep: set<nat>)
    requires FirstUser(ms) >= 0 ==> FirstUser(ms) in keep
    ensures FirstRequest(Pick(ms, keep)) == FirstRequest(ms)
  {
    FirstRequestIsFirstUser(ms);
    var f := FirstUser(ms);
    var cut: nat := if f >= 0 then f else |ms|;
    PickQuiet(ms, keep, cut);
    if f >= 0 {
      PickHead(ms, keep, f);
    } else {
      assert ms[..|ms|] == ms;
    }
  }

  lemma {:induction false} PickQuiet(ms: seq<Message>, keep: set<nat>, n: nat)
    requires n <= |ms| && forall k :: 0 <= k < n ==> ms[k].role != User
    ensures FirstRequest(Pick(ms[..n], keep)).None?
  {
    if n > 0 {
      PickQuiet(ms, keep, n - 1);
      assert ms[..n][..n - 1] == ms[..n - 1];
      FirstRequestOfTwo(Pick(ms[..n - 1], keep), if n - 1 in keep then [ms[n - 1]] else []);
      NoRequest(if n - 1 in keep then [ms[n - 1]] else []);
    }
  }

  lemma {:induction false} PickHead(ms: seq<Message>, keep: set<nat>, f: nat)
    requires f < |ms| && ms[f].role == User && f in keep
    requires forall k :: 0 <= k < f ==> ms[k].role != User
    ensures FirstRequest(Pick(ms, keep)) == Some(ms[f])
  {
    var n := |ms| - 1;
    var t := ms[..n];
    if f == n {
      PickQuiet(ms, keep, f);
      FirstRequestOfTwo(Pick(t, keep), [ms[f]]);
      assert [ms[f]][..0] == [];
    } else {
      PickHead(t, keep, f);
      FirstRequestOfTwo(Pick(t, keep), if n in keep then [ms[n]] else []);
    }
  }

  lemma WindowKeepsRounds(ms: seq<Message>, keepRecent: int)
    requires RoundForm(ms)
    ensures KeepsRounds(ms, Pick(ms, WindowKeeps(ms, keepRecent)))
  {
    var keeps := WindowKeeps(ms, keepRecent);
    WindowKeepsRoundForm(ms, keepRecent);
    forall i: nat | i < |ms| && (i < LeadingSystem(ms) || i == FirstUser(ms)) ensures i in keeps {
      assert KeptAt(ms, keepRecent, i);
    }
    PickKeepsPrefix(ms, keeps, LeadingSystem(ms));
    PickFirstRequest(ms, keeps);
    PickNoNewCalls(ms, keeps);
    if WindowCuts(ms, keepRecent) {
      WindowAnswers(ms, keepRecent);
    } else {
      assert forall i: nat :: i < |ms| ==> KeptAt(ms, keepRecent, i) && i in keeps;
      PickAll(ms, keeps);
    }
  }

  lemma PickNoNewCalls(ms: seq<Message>, keep: set<nat>)
    ensures NoNewCalls(ms, Pick(ms, keep))
  {
    var out := Pick(ms, keep);
    forall a, id | 0 <= a < |out| && Issues(out[a], id) ensures IssuedBy(ms, id) {
      PickMembers(ms, keep, out[a]);
      var i: nat :| i < |ms| && i in keep && ms[i] == out[a];
    }
  }

  lemma WindowAnswers(ms: seq<Message>, keepRecent: int)
    requires RoundForm(ms) && WindowCuts(ms, keepRecent)
    ensures KeepsAnswers(ms, Pick(ms, WindowKeeps(ms, keepRecent)))
  {
    var keeps := WindowKeeps(ms, keepRecent);
    var start := WindowStart(ms, keepRecent);
    forall i: nat | start <= i < |ms| ensures i in keeps {
      assert KeptAt(ms, keepRecent, i);
    }
    PickSplit(ms, keeps, start);
    var front := Pick(ms[..start], keeps);
    forall m | m in front ensures m.role == System || m.role == User {
      WindowFrontIsQuiet(ms, keepRecent, m);
    }
    QuietFrontAnswers(ms, front, start);
  }

  lemma QuietFrontAnswers(ms: seq<Message>, front: seq<Message>, start: nat)
    requires RoundForm(ms) && start < |ms| && ms[start].role != Tool
    requires forall m :: m in front ==> m.role == System || m.role == User
    ensures KeepsAnswers(ms, front + ms[start..])
  {
    var out := front + ms[start..];
    forall a, id | 0 <= a < |out| && Issues(out[a], id) && Answered(ms, id)
      ensures Answered(out, id)
    {
      var i := start + (a - |front|);
      assert out[a] == ms[i];
      var j :| 0 <= j < |ms| && Answers(ms[j], id);
      var k: nat :| Owns(ms, k, j);
      assert k == i;
      assert out[|front| + (j - start)] == ms[j];
    }
  }

  // ----- The round summary -----

  lemma AppendKeepsRounds(ms: seq<Message>, summary: Message)
    requires RoundForm(ms) && summary.role == System
    ensures KeepsRounds(ms, ms + [summary])
  {
    var out := ms + [summary];
    var single := [summary];
    assert RoundForm(single);
    forall i, j, id | 0 <= i < |out| && 0 <= j < |out| && Issues(out[i], id) && Issues(out[j], id)
      ensures i == j
    {
      assert i < |ms| && j < |ms|;
    }
    JoinRoundForm(ms, single);
    forall a, id | 0 <= a < |out| && Issues(out[a], id)
      ensures IssuedBy(ms, id) && (Answered(ms, id) ==> Answered(out, id))
    {
      assert out[a] == ms[a];
      if j :| 0 <= j < |ms| && Answers(ms[j], id) {
        assert out[j] == ms[j];
      }
    }
    FirstRequestOfTwo(ms, single);
    assert single[..0] == [];
  }

  // ----- Composition -----

  lemma KeepsRoundsCompose(a: seq<Message>, b: seq<Message>, c: seq<Message>)
    requires KeepsRounds(a, b) && KeepsRounds(b, c)
    ensures KeepsRounds(a, c)
  {
    var n := LeadingSystem(a);
    assert LeadingSystem(b) >= n by {
      assert forall k :: 0 <= k < n ==> b[k] == b[..n][k] == a[..n][k] == a[k];
    }
    assert c[..n] == c[..LeadingSystem(b)][..n];
    assert b[..n] == b[..LeadingSystem(b)][..n];
    forall k, id | 0 <= k < |c| && Issues(c[k], id)
      ensures IssuedBy(a, id) && (Answered(a, id) ==> Answered(c, id))
    {
      assert IssuedBy(b, id);
      var i :| 0 <= i < |b| && Issues(b[i], id);
      assert Answered(a, id) ==> Answered(b, id);
    }
  }

  lemma SameList(ms: seq<Message>)
    requires RoundForm(ms)
    ensures KeepsRounds(ms, ms)
  {
    MaskingKeepsRounds(ms, ms);
  }

  // ----- The cascade, stage by stage -----

  lemma L3KeepsRounds(ws: seq<Work>, env: Env, summary: Message)
    requires RoundForm(Msgs(ws)) && summary.role == System
    ensures KeepsRounds(Msgs(ws), Msgs(AfterL3(ws, L3Range(ws, env), Some(summary))))
  {
    var range := L3Range(ws, env);
    var ms := Msgs(ws);
    if range.Some? {
      SpliceKeepsRounds(ms, env.keepRecent, summary);
      MsgsOfSplice(ws, range.value, summary);
    } else {
      SameList(ms);
    }
  }

  lemma WindowStageKeepsRounds(ws: seq<Work>, env: Env)
    requires RoundForm(Msgs(ws))
    ensures KeepsRounds(Msgs(ws), Msgs(Pick(ws, WindowOf(ws, env))))
  {
    PickOfMap(MsgOf, ws, WindowOf(ws, env));
    if env.est(Msgs(ws)) >= env.budget {
      WindowKeepsRounds(Msgs(ws), env.keepRecent);
    } else {
      PickAll(ws, Positions(|ws|));
      SameList(Msgs(ws));
    }
  }

  lemma RoundStageKeepsRounds(ws: seq<Work>, start: nat, summary: Message)
    requires RoundForm(Msgs(ws)) && LatestRound(Msgs(ws)) == Some(start) && summary.role == System
    ensures KeepsRounds(Msgs(ws), Msgs(MaskRound(ws, start, summary)))
  {
    hide KeepsRounds, RoundForm, SparesOthers, LatestRound, MaskRound, IdsOf;
    MaskRoundSpares(ws, start, summary);
    MaskedThenSummary(Msgs(ws), Msgs(MaskRound(ws, start, summary))[..|ws|], summary);
  }

  lemma MaskedThenSummary(ms: seq<Message>, masked: seq<Message>, summary: Message)
    requires RoundForm(ms) && SparesOthers(ms, masked) && summary.role == System
    ensures KeepsRounds(ms, masked + [summary])
  {
    hide SparesOthers, KeepsAnswers, NoNewCalls, KeepsAnchors, RoundForm;
    MaskingKeepsRounds(ms, masked);
    AppendKeepsRounds(masked, summary);
    KeepsRoundsCompose(ms, masked, masked + [summary]);
  }

  lemma MaskRoundSpares(ws: seq<Work>, start: nat, summary: Message)
    requires start <= |ws|
    requires forall k :: start <= k < |ws| ==> ws[k].msg.role == Tool || ws[k].msg.role == Assistant
    ensures var out := Msgs(MaskRound(ws, start, summary));
      && SparesOthers(Msgs(ws), out[..|ws|])
      && out == out[..|ws|] + [summary]
  {
    var ms, out := Msgs(ws), Msgs(MaskRound(ws, start, summary));
    forall k | 0 <= k < |ws|
      ensures SameShape(ms[k], out[k])
      ensures ms[k].role == System || ms[k].role == User ==> out[k] == ms[k]
    {
      if k >= start {
        assert out[k] == MaskRoundMessage(ms[k]);
      } else {
        assert out[k] == ms[k];
      }
    }
  }

  /** The cascade never breaks pairing: from a list in round form it makes a list in round form, no
      call that was answered loses its result while its assistant survives, no call appears from
      nowhere, and the leading system messages and the first user message stay in front, in order. */
  lemma CascadeKeepsRounds(ws: seq<Work>, env: Env, l3: Option<string>, round: Option<string>)
    requires RoundForm(Msgs(ws))
    requires RunCascade(ws, env, l3, round).Compacted?
    ensures KeepsRounds(Msgs(ws), Msgs(RunCascade(ws, env, l3, round).items))
  {
    if env.est(Msgs(ws)) < env.budget {
      MaskAllSpares(ws, MAX_SAFE_INTEGER, env.force);
      MaskingKeepsRounds(Msgs(ws), Msgs(MaskAll(ws, MAX_SAFE_INTEGER, env.force)));
      return;
    }
    var a := MaskAll(ws, env.keepRecent, env.force);
    MaskAllSpares(ws, env.keepRecent, env.force);
    MaskingKeepsRounds(Msgs(ws), Msgs(a));
    var b := AfterSummary(ws, env, l3);
    L3KeepsRounds(a, env, if l3.Some? then SummaryMessage(env, l3.value) else SummaryMessage(env, ""));
    KeepsRoundsCompose(Msgs(ws), Msgs(a), Msgs(b));
    var c := AfterWindow(ws, env, l3);
    WindowStageKeepsRounds(b, env);
    KeepsRoundsCompose(Msgs(ws), Msgs(b), Msgs(c));
    var recent := RoundToSummarize(c, env, RangeOf(ws, env).Some?);
    if recent.Some? {
      var summary := RoundSummary(env, round.value);
      RoundStageKeepsRounds(c, recent.value, summary);
      KeepsRoundsCompose(Msgs(ws), Msgs(c), Msgs(MaskRound(c, recent.value, summary)));
    }
  }

  // ----- Conservation of stored messages -----

  lemma {:induction false} DbIdsOfTwo(a: seq<Work>, b: seq<Work>)
    ensures DbIds(a + b) == DbIds(a) + DbIds(b)
  {
    if b == [] {
      assert a + b == a;
    } else {
      DbIdsOfTwo(a, b[..|b| - 1]);
      assert (a + b)[..|a + b| - 1] == a + b[..|b| - 1];
    }
  }

  /** The ids of a list, counted. */
  ghost function IdBag(ws: seq<Work>): multiset<int> {
    multiset(DbIds(ws))
  }

  lemma IdBagOfTwo(a: seq<Work>, b: seq<Work>)
    ensures IdBag(a + b) == IdBag(a) + IdBag(b)
  {
    DbIdsOfTwo(a, b);
  }

  /** A selection and its complement split the ids. */
  lemma {:induction false} PickSplitsIds(ws: seq<Work>, keep: set<nat>, rest: set<nat>)
    requires forall i: nat :: i < |ws| ==> (i in rest <==> i !in keep)
    ensures IdBag(Pick(ws, keep)) + IdBag(Pick(ws, rest)) == IdBag(ws)
  {
    hide IdBag;
    if ws == [] {
      NoIdsAtAll();
    } else {
      var n: nat := |ws| - 1;
      var t, last := ws[..n], [ws[n]];
      PickSplitsIds(t, keep, rest);
      assert ws == t + last;
      IdBagOfTwo(t, last);
      IdBagOfTwo(Pick(t, keep), last);
      IdBagOfTwo(Pick(t, rest), last);
      assert n in keep ==> Pick(ws, keep) == Pick(t, keep) + last && Pick(ws, rest) == Pick(t, rest);
      assert n !in keep ==> Pick(ws, keep) == Pick(t, keep) && Pick(ws, rest) == Pick(t, rest) + last;
      BagsMove(IdBag(Pick(t, keep)), IdBag(Pick(t, rest)), IdBag(last));
    }
  }

  lemma NoIdsAtAll()
    ensures IdBag([]) == multiset{}
  {
  }

  lemma BagsMove(a: multiset<int>, b: multiset<int>, c: multiset<int>)
    ensures (a + c) + b == (a + b) + c && a + (b + c) == (a + b) + c
  {
  }

  lemma {:induction false} SameIds(a: seq<Work>, b: seq<Work>)
    requires |a| == |b| && forall k :: 0 <= k < |a| ==> a[k].dbId == b[k].dbId
    ensures DbIds(a) == DbIds(b)
  {
    if a != [] {
      SameIds(a[..|a| - 1], b[..|b| - 1]);
    }
  }

  lemma NoIds(summary: Message)
    ensures DbIds([Work(summary, None, false)]) == []
  {
    var one := [Work(summary, None, false)];
    assert one[..0] == [];
  }

  lemma SpliceDbIds(ws: seq<Work>, c: Candidate, summary: Message)
    requires c.start <= c.end <= |ws|
    ensures DbIds(Splice(ws, c, summary)) == DbIds(ws[..c.start]) + DbIds(ws[c.end..])
  {
    var one := [Work(summary, None, false)];
    NoIds(summary);
    DbIdsOfTwo(ws[..c.start] + one, ws[c.end..]);
    DbIdsOfTwo(ws[..c.start], one);
  }

  lemma SpliceIds(ws: seq<Work>, c: Candidate, summary: Message)
    requires c.start <= c.end <= |ws|
    ensures IdBag(Splice(ws, c, summary)) + IdBag(ws[c.start..c.end]) == IdBag(ws)
  {
    hide DbIds, Splice;
    SpliceDbIds(ws, c, summary);
    assert ws == ws[..c.end] + ws[c.end..] && ws[..c.end] == ws[..c.start] + ws[c.start..c.end];
    IdBagOfTwo(ws[..c.end], ws[c.end..]);
    IdBagOfTwo(ws[..c.start], ws[c.start..c.end]);
  }

  lemma AppendSummaryIds(front: seq<Work>, summary: Message)
    ensures DbIds(front + [Work(summary, None, false)]) == DbIds(front)
  {
    NoIds(summary);
    DbIdsOfTwo(front, [Work(summary, None, false)]);
  }

  lemma MaskRoundIds(ws: seq<Work>, start: nat, summary: Message)
    requires start <= |ws|
    ensures var r := MaskRound(ws, start, summary);
      && r == r[..|ws|] + [Work(summary, None, false)]
      && forall k :: 0 <= k < |ws| ==> r[..|ws|][k].dbId == ws[k].dbId
  {
    hide MaskRound, MaskRoundMessage;
  }

  lemma RoundIds(ws: seq<Work>, start: nat, summary: Message)
    requires start <= |ws|
    ensures DbIds(MaskRound(ws, start, summary)) == DbIds(ws)
  {
    hide DbIds, MaskRound;
    MaskRoundIds(ws, start, summary);
    AppendSummaryIds(MaskRound(ws, start, summary)[..|ws|], summary);
    SameIds(MaskRound(ws, start, summary)[..|ws|], ws);
  }

  lemma SummaryConservesIds(ws: seq<Work>, env: Env, l3: Option<string>)
    requires RangeOf(ws, env).Some? ==> l3.Some?
    ensures var a := MaskAll(ws, env.keepRecent, env.force);
      var range := RangeOf(ws, env);
      IdBag(ws) == IdBag(AfterSummary(ws, env, l3))
        + (if range.Some? then IdBag(a[range.value.start..range.value.end]) else multiset{})
  {
    var a := MaskAll(ws, env.keepRecent, env.force);
    SameIds(ws, a);
    var range := RangeOf(ws, env);
    if range.Some? {
      SpliceIds(a, range.value, SummaryMessage(env, l3.value));
    }
  }

  lemma WindowConservesIds(ws: seq<Work>, keep: set<nat>)
    ensures IdBag(ws) == IdBag(Pick(ws, keep)) + IdBag(Pick(ws, Positions(|ws|) - keep))
  {
    PickSplitsIds(ws, keep, Positions(|ws|) - keep);
  }

  lemma FinishedItems(ws: seq<Work>, env: Env, l3: Option<string>, recent: Option<nat>, round: Option<string>)
    requires RangeOf(ws, env).Some? ==> l3.Some? && recent.None?
    requires recent.Some? ==> round.Some? && recent.value < |AfterWindow(ws, env, l3)|
    ensures IdBag(AfterWindow(ws, env, l3)) == IdBag(Finished(ws, env, l3, recent, round).items)
  {
    if recent.Some? {
      RoundIds(AfterWindow(ws, env, l3), recent.value, RoundSummary(env, round.value));
    }
  }

  lemma FinishedConservesIds(ws: seq<Work>, env: Env, l3: Option<string>, recent: Option<nat>, round: Option<string>)
    requires env.est(Msgs(ws)) >= env.budget
    requires RangeOf(ws, env).Some? ==> l3.Some? && recent.None?
    requires recent.Some? ==> round.Some? && recent.value < |AfterWindow(ws, env, l3)|
    ensures var r := Finished(ws, env, l3, recent, round);
      IdBag(ws) == IdBag(r.items) + multiset(r.summarizedIds) + multiset(WindowDropped(ws, env, l3))
  {
    var b, r := AfterSummary(ws, env, l3), Finished(ws, env, l3, recent, round);
    SummaryConservesIds(ws, env, l3);
    WindowConservesIds(b, WindowOf(b, env));
    FinishedItems(ws, env, l3, recent, round);
    Regroup(IdBag(ws), IdBag(b), IdBag(r.items), multiset(r.summarizedIds), multiset(WindowDropped(ws, env, l3)));
  }

  lemma Regroup(all: multiset<int>, rest: multiset<int>, kept: multiset<int>, taken: multiset<int>, dropped: multiset<int>)
    requires all == rest + taken && rest == kept + dropped
    ensures all == kept + taken + dropped
  {
  }

  /** Compaction conserves stored messages: counted with multiplicity, the ids of the input are those
      of the output list, those summarised by L3, and those dropped by the window. */
  lemma CascadeConservesIds(ws: seq<Work>, env: Env, l3: Option<string>, round: Option<string>)
    requires RunCascade(ws, env, l3, round).Compacted?
    ensures var r := RunCascade(ws, env, l3, round);
      IdBag(ws) == IdBag(r.items) + multiset(r.summarizedIds) + multiset(WindowDropped(ws, env, l3))
  {
    if env.est(Msgs(ws)) < env.budget {
      SameIds(ws, MaskAll(ws, MAX_SAFE_INTEGER, env.force));
    } else {
      var c := AfterWindow(ws, env, l3);
      FinishedConservesIds(ws, env, l3, RoundToSummarize(c, env, RangeOf(ws, env).Some?), round);
    }
  }
}
