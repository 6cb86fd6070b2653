/** What each stage of the compaction cascade does and when it acts, said of the lists themselves and not
    through the functions that compute the stages. */
module CascadeActs {
  import opened Wrappers
  import opened Messages
  import opened Lists
  import opened Compaction
  import opened Cascade

  // ----- L1: masking -----

  /** `r` is what L1 makes of `m`; `aged` when it lies in front of the recent messages. */
  predicate MaskedAs(m: Message, r: Message, aged: bool, force: set<string>) {
    if m.role == Tool && m.collapsed == Intact && aged && |m.Text()| >= MASK_MIN_CHARS then
      r == m.(content := Some(MaskPlaceholder(m.Text())), collapsed := Masked) && |r.Text()| < |m.Text()|
    else if m.role == Assistant && m.collapsed == Intact && (aged || exists c :: c in m.toolCalls && c.name in force)
         && m.toolCalls != [] && (HasLargeArguments(m.toolCalls) || (aged && m.providerState)) then
      && r == m.(toolCalls := r.toolCalls, providerState := m.providerState && !aged, collapsed := Masked)
      && SameCallIds(m.toolCalls, r.toolCalls)
      && forall k :: 0 <= k < |m.toolCalls| ==>
           r.toolCalls[k].arguments == if |m.toolCalls[k].arguments| >= TOOL_ARGS_MASK_MIN_CHARS
                                       then MaskedArguments(m.toolCalls[k]) else m.toolCalls[k].arguments
    else r == m
  }

  /** All messages but the newest `keepRecent` are masked as aged ones, and those as recent ones. */
  ghost predicate Masks(a: seq<Work>, b: seq<Work>, keepRecent: int, force: set<string>) {
    && |b| == |a|
    && forall i :: 0 <= i < |a| ==>
         b[i] == a[i].(msg := b[i].msg) && MaskedAs(a[i].msg, b[i].msg, i < |a| - Max(0, keepRecent), force)
  }

  lemma MaskAllMasks(ws: seq<Work>, keepRecent: int, force: set<string>)
    ensures Masks(ws, MaskAll(ws, keepRecent, force), keepRecent, force)
  {
    hide MaskMessage, MaskedArguments, MaskPlaceholder;
    var b := MaskAll(ws, keepRecent, force);
    forall i | 0 <= i < |ws|
      ensures b[i] == ws[i].(msg := b[i].msg)
      ensures MaskedAs(ws[i].msg, b[i].msg, i < |ws| - Max(0, keepRecent), force)
    {
      MaskedExactly(ws[i].msg, i < |ws| - Max(0, keepRecent), force);
    }
  }

  /** Exactly the messages that change: of those in front of the newest `keepRecent` the large intact results
      and the intact turns with large arguments or replay state, and of the newest only intact turns that
      call a forced tool and have large arguments. */
  lemma ChangesExactly(ws: seq<Work>, keepRecent: int, force: set<string>, i: nat)
    requires i < |ws|
    ensures var m := ws[i].msg;
      MaskAll(ws, keepRecent, force)[i] != ws[i] <==>
        && m.collapsed == Intact
        && if i < |ws| - Max(0, keepRecent) then
             || (m.role == Tool && |m.Text()| >= MASK_MIN_CHARS)
             || (CallsTools(m) && (HasLargeArguments(m.toolCalls) || m.providerState))
           else CallsTools(m) && HasLargeArguments(m.toolCalls) && exists c :: c in m.toolCalls && c.name in force
  {
    hide MaskMessage, MaskedArguments, MaskPlaceholder;
    MaskedExactly(ws[i].msg, i < |ws| - Max(0, keepRecent), force);
  }

  // ----- L3: the summary range -----

  /** The protected front: up to and with the first user message, or the leading system messages if there
      is no user message. */
  predicate EndsFront(ms: seq<Message>, n: nat) {
    if exists u :: 0 <= u < |ms| && ms[u].role == User
    then 0 < n <= |ms| && ms[n - 1].role == User && forall k :: 0 <= k < n - 1 ==> ms[k].role != User
    else n <= |ms| && (forall k :: 0 <= k < n ==> LeadsSystem(ms[k])) && (n < |ms| ==> !LeadsSystem(ms[n]))
  }

  /** The last cut that no result of an inside call lies behind. */
  ghost predicate SafeCut(ms: seq<Message>, lo: nat, limit: nat, e: nat) {
    && lo <= e <= limit <= |ms| && SplitsNothing(ms, lo, e)
    && forall x :: e < x <= limit ==> !SplitsNothing(ms, lo, x)
  }

  /** From `hi` to `e` stand calling turns and then results, as many as there are. */
  predicate TrailOff(ms: seq<Message>, lo: nat, hi: nat, bare: nat, e: nat) {
    && lo <= hi <= bare <= e <= |ms|
    && (forall k :: bare <= k < e ==> ms[k].role == Tool) && (bare > lo ==> ms[bare - 1].role != Tool)
    && (forall k :: hi <= k < bare ==> CallsTools(ms[k])) && (hi > lo ==> !CallsTools(ms[hi - 1]))
  }

  /** The messages from `lo` up to `hi` can be summarised. */
  ghost predicate Summarisable(ms: seq<Message>, keepRecent: int, lo: nat, hi: nat) {
    EndsFront(ms, lo) && CutAt(ms, keepRecent, lo, hi) && hi <= |ms| && exists k :: lo <= k < hi && ms[k].role != System
  }

  /** Behind the last safe cut outside the recent messages nothing trails off. */
  ghost predicate CutAt(ms: seq<Message>, keepRecent: int, lo: nat, hi: nat) {
    exists bare: nat, e: nat :: SafeCut(ms, lo, Max(lo, |ms| - Max(0, keepRecent)), e) && TrailOff(ms, lo, hi, bare, e)
  }

  lemma FrontIsProtected(ms: seq<Message>, n: nat)
    ensures EndsFront(ms, n) <==> n == ProtectedEnd(ms)
  {
    var f, lead := FirstUser(ms), LeadingSystem(ms);
    if EndsFront(ms, n) {
      if f >= 0 {
        assert ms[f].role == User;
        assert !(n - 1 < f) && !(f < n - 1);
      } else {
        assert !(n < lead) && !(lead < n);
      }
    }
    if n == ProtectedEnd(ms) && f >= 0 {
      assert ms[f].role == User;
    }
  }

  lemma TrailIsTrimmed(ms: seq<Message>, lo: nat, hi: nat, bare: nat, e: nat)
    requires lo <= e <= |ms|
    ensures TrailOff(ms, lo, hi, bare, e) <==>
      bare == TrimTools(ms, lo, e) && hi == TrimCallers(ms, lo, TrimTools(ms, lo, e))
  {
    hide TrimTools, TrimCallers;
    var t := TrimTools(ms, lo, e);
    var c := TrimCallers(ms, lo, t);
    if TrailOff(ms, lo, hi, bare, e) {
      assert !(bare < t) && !(t < bare);
      assert !(hi < c) && !(c < hi);
    }
  }

  lemma SafeCutIsSafeEnd(ms: seq<Message>, lo: nat, limit: nat, e: nat)
    requires lo <= limit <= |ms|
    ensures SafeCut(ms, lo, limit, e) <==> e == SafeEnd(ms, lo, limit)
  {
    hide SplitsNothing, SafeEnd;
    if SafeCut(ms, lo, limit, e) {
      SafeEndUnique(ms, lo, limit, e);
    }
  }

  lemma CutIsTrimmed(ms: seq<Message>, keepRecent: int, hi: nat)
    ensures CutAt(ms, keepRecent, ProtectedEnd(ms), hi) <==> hi == Trimmed(ms, ProtectedEnd(ms), SearchEnd(ms, keepRecent))
  {
    hide SafeCut, TrailOff, ProtectedEnd, SafeEnd, TrimTools, TrimCallers;
    var lo, e := ProtectedEnd(ms), SearchEnd(ms, keepRecent);
    var limit: nat := Max(lo, |ms| - Max(0, keepRecent));
    if CutAt(ms, keepRecent, lo, hi) {
      var bare: nat, x: nat :| SafeCut(ms, lo, limit, x) && TrailOff(ms, lo, hi, bare, x);
      SafeCutIsSafeEnd(ms, lo, limit, x);
      TrailIsTrimmed(ms, lo, hi, bare, x);
    }
    if hi == Trimmed(ms, lo, e) {
      var bare := TrimTools(ms, lo, e);
      SafeCutIsSafeEnd(ms, lo, limit, e);
      TrailIsTrimmed(ms, lo, hi, bare, e);
      assert SafeCut(ms, lo, limit, e) && TrailOff(ms, lo, hi, bare, e);
    }
  }

  /** For any list there is a summary range exactly when some messages can be summarised, and it is those. */
  lemma RangeExactly(ms: seq<Message>, keepRecent: int, lo: nat, hi: nat)
    ensures Summarisable(ms, keepRecent, lo, hi) <==> SummaryRange(ms, keepRecent) == Some(Candidate(lo, hi))
  {
    hide EndsFront, CutAt, ProtectedEnd, SearchEnd, Trimmed;
    FrontIsProtected(ms, lo);
    CutIsTrimmed(ms, keepRecent, hi);
  }

  /** A message that is no result, at or behind one that calls no tools, at or behind one that is no system
      message. */
  predicate HoldsTurns(ms: seq<Message>, lo: nat, e: nat, k: nat, q: nat, p: nat) {
    && lo <= k <= q <= p < e <= |ms|
    && ms[k].role != System && !CallsTools(ms[q]) && ms[p].role != Tool
  }

  /** When there is a range: exactly when such messages stand between the front and the last safe cut. */
  lemma RangeIff(ms: seq<Message>, keepRecent: int, lo: nat, e: nat)
    requires EndsFront(ms, lo) && SafeCut(ms, lo, Max(lo, |ms| - Max(0, keepRecent)), e)
    ensures SummaryRange(ms, keepRecent).Some? <==> exists k, q, p :: HoldsTurns(ms, lo, e, k, q, p)
  {
    hide EndsFront, SafeCut, ProtectedEnd, SafeEnd, TrimTools, TrimCallers;
    FrontIsProtected(ms, lo);
    SafeCutIsSafeEnd(ms, lo, Max(lo, |ms| - Max(0, keepRecent)), e);
    var bare := TrimTools(ms, lo, e);
    var hi := TrimCallers(ms, lo, bare);
    assert hi == Trimmed(ms, lo, SearchEnd(ms, keepRecent));
    if SummaryRange(ms, keepRecent).Some? {
      var k :| lo <= k < hi && ms[k].role != System;
      assert HoldsTurns(ms, lo, e, k, hi - 1, bare - 1);
    }
    if k, q, p :| HoldsTurns(ms, lo, e, k, q, p) {
      assert p < bare && q < hi;
    }
  }

  // ----- The recent round -----

  /** From `start` on stands a turn with all of its results, one for each call, and nothing else. */
  predicate IsRound(ms: seq<Message>, start: nat) {
    && start + 1 < |ms| && CallsTools(ms[start])
    && (forall k :: start < k < |ms| ==> Resolves(ms[start], ms[k]))
    && NoneTwice(ms, start) && EachCallResolved(ms, start)
  }

  predicate NoneTwice(ms: seq<Message>, start: nat) {
    forall j, k :: start < j < k < |ms| ==> ms[j].toolCallId != ms[k].toolCallId
  }

  predicate EachCallResolved(ms: seq<Message>, start: nat)
    requires start < |ms|
  {
    forall c :: c in ms[start].toolCalls ==> ResolvedBehind(ms, start, c.id)
  }

  predicate ResolvedBehind(ms: seq<Message>, start: nat, id: string) {
    exists k :: start < k < |ms| && ms[k].toolCallId == Some(id)
  }

  /** `m` is a result for one of the turn's calls. */
  predicate Resolves(turn: Message, m: Message) {
    m.role == Tool && m.toolCallId.Some? && m.toolCallId.value != "" && HasCall(turn.toolCalls, m.toolCallId.value)
  }

  function Members(ids: seq<Option<string>>): set<Option<string>> {
    set x | x in ids
  }

  predicate AllDiffer(ids: seq<Option<string>>) {
    forall i, j :: 0 <= i < j < |ids| ==> ids[i] != ids[j]
  }

  lemma OneMoreMember(init: seq<Option<string>>, last: Option<string>)
    ensures Members(init + [last]) == Members(init) + {last}
    ensures AllDiffer(init + [last]) <==> AllDiffer(init) && last !in Members(init)
  {
    var ids := init + [last];
    assert forall i :: 0 <= i < |init| ==> ids[i] == init[i];
    assert ids[|init|] == last;
    if last in init {
      var i :| 0 <= i < |init| && init[i] == last;
      assert ids[i] == ids[|init|];
    }
  }

  lemma {:induction false} AsManyAsIds(ids: seq<Option<string>>)
    ensures |Members(ids)| <= |ids|
    ensures |Members(ids)| == |ids| <==> AllDiffer(ids)
  {
    if ids == [] {
      assert Members(ids) == {};
    } else {
      hide Members, AllDiffer;
      var init, last := ids[..|ids| - 1], ids[|ids| - 1];
      assert ids == init + [last];
      AsManyAsIds(init);
      OneMoreMember(init, last);
    }
  }

  lemma SameSize<T>(a: set<T>, b: set<T>)
    requires a <= b
    ensures |a| <= |b| && (|a| == |b| <==> a == b)
  {
    assert b == a + (b - a);
  }

  function Wrapped(ids: set<string>): set<Option<string>> {
    set id | id in ids :: Some(id)
  }

  lemma {:induction false} WrappedSize(ids: set<string>)
    ensures |Wrapped(ids)| == |ids|
  {
    if ids != {} {
      var id :| id in ids;
      WrappedSize(ids - {id});
      assert Wrapped(ids) == Wrapped(ids - {id}) + {Some(id)};
    }
  }

  function ResolvedIds(ms: seq<Message>, start: nat): set<Option<string>> {
    set k | start + 1 <= k < |ms| :: ms[k].toolCallId
  }

  lemma NoneTwiceByCount(ms: seq<Message>, start: nat)
    requires start < |ms|
    ensures |ResolvedIds(ms, start)| == |ms| - start - 1 <==> NoneTwice(ms, start)
  {
    var ids := seq(|ms| - start - 1, k requires 0 <= k < |ms| - start - 1 => ms[start + 1 + k].toolCallId);
    assert forall k :: start < k < |ms| ==> ids[k - start - 1] == ms[k].toolCallId;
    assert ResolvedIds(ms, start) == Members(ids);
    AsManyAsIds(ids);
    if NoneTwice(ms, start) {
      assert forall i, j :: 0 <= i < j < |ids| ==> ids[i] != ids[j];
    }
    if forall i, j :: 0 <= i < j < |ids| ==> ids[i] != ids[j] {
      forall j, k | start < j < k < |ms| ensures ms[j].toolCallId != ms[k].toolCallId {
        assert ids[j - start - 1] != ids[k - start - 1];
      }
    }
  }

  lemma EachResolvedBySet(ms: seq<Message>, start: nat)
    requires start < |ms| && forall k :: start < k < |ms| ==> Resolves(ms[start], ms[k])
    ensures ResolvedIds(ms, start) <= Wrapped(IdsOf(ms[start].toolCalls))
    ensures ResolvedIds(ms, start) == Wrapped(IdsOf(ms[start].toolCalls)) <==> EachCallResolved(ms, start)
  {
    var actual, expected := ResolvedIds(ms, start), IdsOf(ms[start].toolCalls);
    forall id ensures Some(id) in actual <==> ResolvedBehind(ms, start, id) {}
    forall x | x in actual ensures x in Wrapped(expected) {
      var k :| start + 1 <= k < |ms| && ms[k].toolCallId == x;
      assert Resolves(ms[start], ms[k]);
    }
    if EachCallResolved(ms, start) {
      forall x | x in Wrapped(expected) ensures x in actual {
        var c :| c in ms[start].toolCalls && Some(c.id) == x;
      }
    }
    if actual == Wrapped(expected) {
      forall c | c in ms[start].toolCalls ensures ResolvedBehind(ms, start, c.id) {
        assert Some(c.id) in Wrapped(expected);
      }
    }
  }

  /** The counts that the search compares say that each call has exactly one result. */
  lemma CountsMatch(ms: seq<Message>, start: nat)
    requires start < |ms| && forall k :: start < k < |ms| ==> Resolves(ms[start], ms[k])
    ensures var expected := IdsOf(ms[start].toolCalls);
      (|ms| - start - 1 == |expected| && |ResolvedIds(ms, start)| == |expected|) <==>
        NoneTwice(ms, start) && EachCallResolved(ms, start)
  {
    hide ResolvedIds, NoneTwice, EachCallResolved, IdsOf, Resolves, Wrapped;
    var expected := IdsOf(ms[start].toolCalls);
    NoneTwiceByCount(ms, start);
    EachResolvedBySet(ms, start);
    WrappedSize(expected);
    SameSize(ResolvedIds(ms, start), Wrapped(expected));
  }

  /** The search finds a round exactly where one stands at the end of the list. */
  lemma RoundExactly(ms: seq<Message>, start: nat)
    ensures LatestRound(ms) == Some(start) <==> IsRound(ms, start)
  {
    hide IdsOf, NoneTwice, EachCallResolved;
    var first := FirstResult(ms, |ms|);
    if IsRound(ms, start) || (LatestRound(ms) == Some(start)) {
      assert forall k :: start < k < |ms| ==> ms[k].role == Tool;
      assert first == start + 1;
      ResolvesMeans(ms, start);
      if forall k :: start < k < |ms| ==> Resolves(ms[start], ms[k]) {
        CountsMatch(ms, start);
        assert ResolvedIds(ms, start) == set k | first <= k < |ms| :: ms[k].toolCallId;
      }
    }
  }

  lemma ResolvesMeans(ms: seq<Message>, start: nat)
    requires start < |ms|
    ensures forall m :: Resolves(ms[start], m) <==>
      m.role == Tool && m.toolCallId.Some? && m.toolCallId.value != "" && m.toolCallId.value in IdsOf(ms[start].toolCalls)
  {
  }

  // ----- L2: the window -----

  predicate IsSummary(m: Message) {
    m.role == System && m.collapsed == Summarized
  }

  /** What the window never drops: the tail from `start` on, the leading system messages, the first user
      message and the last summary. */
  predicate Anchored(ms: seq<Message>, start: nat, i: nat)
    requires i < |ms|
  {
    || start <= i
    || (forall k :: 0 <= k <= i ==> LeadsSystem(ms[k]))
    || (ms[i].role == User && forall k :: 0 <= k < i ==> ms[k].role != User)
    || (IsSummary(ms[i]) && forall k :: i < k < |ms| ==> !IsSummary(ms[k]))
  }

  /** The tail: from the first message of the newest `keepRecent`, and behind the leading system messages,
      that is no result. */
  predicate StartsTail(ms: seq<Message>, keepRecent: int, start: nat) {
    var from := Max(LeadingSystem(ms), |ms| - keepRecent);
    && from <= start
    && (forall k :: from <= k < start ==> k < |ms| && ms[k].role == Tool)
    && (start < |ms| ==> ms[start].role != Tool)
  }

  /** There is a tail, more in front of it than the first user message or else a summary, and something
      there that is no anchor. */
  predicate Overfull(ms: seq<Message>, start: nat) {
    && start < |ms|
    && (start > FirstUser(ms) + 1 || exists k :: 0 <= k < |ms| && IsSummary(ms[k]))
    && exists i: nat :: i < start && !Anchored(ms, start, i)
  }

  /** A list over budget that is overfull shrinks to its anchors; any other stays. */
  ghost predicate Windows(b: seq<Work>, env: Env, c: seq<Work>) {
    exists start: nat :: StartsTail(Msgs(b), env.keepRecent, start) &&
      if env.est(Msgs(b)) >= env.budget && Overfull(Msgs(b), start)
      then c == Pick(b, set i: nat | i < |b| && Anchored(Msgs(b), start, i)) && |c| < |b|
      else c == b
  }

  lemma AnchoredIsKept(ms: seq<Message>, keepRecent: int, i: nat)
    requires WindowCuts(ms, keepRecent) && i < |ms|
    ensures Anchored(ms, WindowStart(ms, keepRecent), i) <==> KeptAt(ms, keepRecent, i)
  {
    hide WindowStart, WindowCuts;
    var lead, u, l := LeadingSystem(ms), FirstUser(ms), LastSummary(ms);
    assert i >= lead ==> lead < |ms| && !LeadsSystem(ms[lead]);
    assert u >= 0 ==> ms[u].role == User;
    assert l >= 0 ==> IsSummary(ms[l]);
  }

  lemma TailStartsAt(ms: seq<Message>, keepRecent: int)
    ensures StartsTail(ms, keepRecent, WindowStart(ms, keepRecent))
  {
  }

  lemma CutsWhen(ms: seq<Message>, keepRecent: int)
    ensures var start := WindowStart(ms, keepRecent);
      WindowCuts(ms, keepRecent) <==>
        start < |ms| && (start > FirstUser(ms) + 1 || exists k :: 0 <= k < |ms| && IsSummary(ms[k]))
  {
    hide WindowStart;
    assert LastSummary(ms) >= 0 ==> IsSummary(ms[LastSummary(ms)]);
  }

  lemma {:induction false} PickDrops<T>(s: seq<T>, keep: set<nat>, i: nat)
    requires i < |s| && i !in keep
    ensures |Pick(s, keep)| < |s|
  {
    if i < |s| - 1 {
      PickDrops(s[..|s| - 1], keep, i);
    }
  }

  lemma WindowActs(b: seq<Work>, env: Env)
    ensures Windows(b, env, Pick(b, WindowOf(b, env)))
  {
    hide WindowStart, WindowCuts, KeptAt, Anchored, Pick;
    var ms := Msgs(b);
    var start := WindowStart(ms, env.keepRecent);
    var kept := Pick(b, WindowOf(b, env));
    TailStartsAt(ms, env.keepRecent);
    CutsWhen(ms, env.keepRecent);
    var anchors := set i: nat | i < |b| && Anchored(ms, start, i);
    if env.est(ms) >= env.budget && WindowCuts(ms, env.keepRecent) {
      forall i: nat | i < |b| ensures Anchored(ms, start, i) <==> KeptAt(ms, env.keepRecent, i) {
        AnchoredIsKept(ms, env.keepRecent, i);
      }
      assert WindowOf(b, env) == anchors;
      forall i: nat | start <= i < |b| ensures i in anchors {
        TailIsAnchored(ms, start, i);
      }
      if i: nat :| i < start && !Anchored(ms, start, i) {
        PickDrops(b, anchors, i);
      } else {
        PickAll(b, anchors);
      }
    } else {
      if env.est(ms) >= env.budget {
        NothingCut(ms, env.keepRecent);
      }
      PickAll(b, WindowOf(b, env));
    }
  }

  lemma TailIsAnchored(ms: seq<Message>, start: nat, i: nat)
    requires start <= i < |ms|
    ensures Anchored(ms, start, i)
  {
  }

  lemma NothingCut(ms: seq<Message>, keepRecent: int)
    requires !WindowCuts(ms, keepRecent)
    ensures forall i: nat :: i < |ms| ==> i in WindowKeeps(ms, keepRecent)
  {
  }

  // ----- When the stages act -----

  predicate Stored(ws: seq<Work>, lo: nat, hi: nat) {
    exists k :: lo <= k < hi && k < |ws| && ws[k].dbId.Some?
  }

  /** L3 is due on the messages from `lo` up to `hi`: there is a provider, the list is over budget, and some
      of these messages are stored. */
  ghost predicate L3Due(a: seq<Work>, env: Env, lo: nat, hi: nat) {
    && env.hasProvider && env.est(Msgs(a)) >= env.budget
    && Summarisable(Msgs(a), env.keepRecent, lo, hi) && Stored(a, lo, hi)
  }

  /** L3 puts one summary in the place of these messages. */
  ghost predicate Summarised(a: seq<Work>, env: Env, text: string, b: seq<Work>, ids: seq<int>) {
    exists lo: nat, hi: nat :: L3Due(a, env, lo, hi) && lo <= hi <= |a|
      && b == a[..lo] + [SummaryEntry(env, env.wording(text))] + a[hi..] && ids == DbIds(a[lo..hi])
  }

  function SummaryEntry(env: Env, text: string): Work {
    Work(Message(env.summaryTag, System, Some(text), [], None, Summarized, false, []), None, false)
  }

  /** The recent round is due: there is a provider, the list is still over budget, it ends in a complete
      round, and all of that is stored. */
  ghost predicate RoundDue(c: seq<Work>, env: Env, start: nat) {
    && env.hasProvider && env.est(Msgs(c)) >= env.budget && IsRound(Msgs(c), start)
    && forall k :: start <= k < |c| ==> c[k].dbId.Some?
  }

  /** `r` is a message of the recent round with its payload cut, however small it is. */
  predicate ReducedAs(m: Message, r: Message) {
    if m.role == Tool then r == m.(content := Some(MaskPlaceholder(m.Text())), mediaRefs := [], collapsed := Masked)
    else
      && r == m.(toolCalls := r.toolCalls, providerState := false, collapsed := Masked)
      && SameCallIds(m.toolCalls, r.toolCalls)
      && forall k :: 0 <= k < |m.toolCalls| ==>
           r.toolCalls[k].arguments == if |m.toolCalls[k].arguments| >= TOOL_ARGS_MASK_MIN_CHARS
                                       then MaskedArguments(m.toolCalls[k]) else m.toolCalls[k].arguments
  }

  /** The round is cut from `start` on and its summary follows it. */
  ghost predicate RoundDone(c: seq<Work>, env: Env, text: string, start: nat, out: seq<Work>) {
    && start <= |c| && |out| == |c| + 1 && out[..start] == c[..start]
    && (forall k :: start <= k < |c| ==> out[k] == c[k].(msg := out[k].msg) && ReducedAs(c[k].msg, out[k].msg))
    && out[|c|] == SummaryEntry(env, env.wording(env.roundWording(text)))
  }

  /** The report of what was masked: the messages that L1 changed, then those of the recent round. */
  predicate ReportsMasked(ws: seq<Work>, a: seq<Work>, r: Outcome, round: seq<int>)
    requires |a| == |ws| && r.Compacted?
  {
    var hit := Pick(ws, set i: nat | i < |ws| && a[i] != ws[i]);
    r.collapsedIds == DbIds(hit) + round && r.masked == |hit| + |round|
  }

  /** Nothing but masking happened, and nothing at all if that changed no message. */
  ghost predicate MaskedOnly(ws: seq<Work>, a: seq<Work>, r: Outcome)
    requires |a| == |ws|
  {
    if a == ws then r == Unchanged
    else r.Compacted? && r.items == a && ReportsMasked(ws, a, r, []) && r.summarized == r.dropped == 0
         && r.summarizedIds == [] && r.summaryOfIds.None? && r.summaryMessage.None?
  }

  /** After masking, L3 acted, and then the window if the list was still over budget. */
  ghost predicate SummarisedThenCut(ws: seq<Work>, a: seq<Work>, env: Env, text: string, r: Outcome)
    requires |a| == |ws|
  {
    exists b, ids :: Summarised(a, env, text, b, ids) && r.Compacted? && Windows(b, env, r.items)
      && r.dropped == |b| - |r.items| && r.summarizedIds == ids && r.summarized == |ids| && r.summaryOfIds.None?
      && r.summaryMessage == Some(SummaryEntry(env, env.wording(text)).msg) && ReportsMasked(ws, a, r, [])
  }

  ghost predicate OnlyCut(ws: seq<Work>, a: seq<Work>, c: seq<Work>, r: Outcome)
    requires |a| == |ws|
  {
    && r.Compacted? && r.items == c && r.dropped == |a| - |c| && r.summarized == 0 && r.summarizedIds == []
    && r.summaryOfIds.None? && r.summaryMessage.None? && ReportsMasked(ws, a, r, [])
  }

  ghost predicate RoundSummarised(ws: seq<Work>, a: seq<Work>, c: seq<Work>, env: Env, text: string, r: Outcome)
    requires |a| == |ws|
  {
    && r.Compacted? && r.dropped == |a| - |c| && r.summarizedIds == []
    && exists start: nat :: RoundDue(c, env, start) && SummarisedFrom(ws, a, c, env, text, r, start)
  }

  ghost predicate SummarisedFrom(ws: seq<Work>, a: seq<Work>, c: seq<Work>, env: Env, text: string, r: Outcome, start: nat)
    requires |a| == |ws| && r.Compacted?
  {
    && RoundDone(c, env, text, start, r.items)
    && r.summaryOfIds == Some(DbIds(c[start..])) && r.summarized == |c| - start
    && r.summaryMessage == Some(r.items[|c|].msg) && ReportsMasked(ws, a, r, DbIds(c[start..]))
  }

  /** After masking, the window acted if the list was over budget, and then the recent round if it still was. */
  ghost predicate CutThenRound(ws: seq<Work>, a: seq<Work>, env: Env, round: Option<string>, r: Outcome)
    requires |a| == |ws|
  {
    exists c :: Windows(a, env, c) &&
      if exists start :: RoundDue(c, env, start)
      then (if round.None? then r == Threw else RoundSummarised(ws, a, c, env, round.value, r))
      else OnlyCut(ws, a, c, r)
  }

  /** The whole outcome. Under budget only forced payloads are masked. Over budget old messages are masked;
      then L3 acts exactly when it is due, the window exactly on an overfull list that is over budget, and
      the recent round exactly when it is due and L3 did not act. The cascade fails exactly when the request
      of an acting stage does. */
  ghost predicate Acts(ws: seq<Work>, env: Env, l3: Option<string>, round: Option<string>, r: Outcome) {
    if env.est(Msgs(ws)) < env.budget then
      exists a :: Masks(ws, a, MAX_SAFE_INTEGER, env.force) && MaskedOnly(ws, a, r)
    else
      exists a :: Masks(ws, a, env.keepRecent, env.force) && Reduces(ws, a, env, l3, round, r)
  }

  ghost predicate Reduces(ws: seq<Work>, a: seq<Work>, env: Env, l3: Option<string>, round: Option<string>, r: Outcome)
    requires |a| == |ws|
  {
    if exists lo, hi :: L3Due(a, env, lo, hi)
    then (if l3.None? then r == Threw else SummarisedThenCut(ws, a, env, l3.value, r))
    else CutThenRound(ws, a, env, round, r)
  }

  lemma {:induction false} StoredIds(ws: seq<Work>)
    ensures DbIds(ws) != [] <==> exists k :: 0 <= k < |ws| && ws[k].dbId.Some?
    ensures |DbIds(ws)| == |ws| <==> forall k :: 0 <= k < |ws| ==> ws[k].dbId.Some?
  {
    if ws != [] {
      StoredIds(ws[..|ws| - 1]);
    }
  }

  lemma L3Matches(a: seq<Work>, env: Env, lo: nat, hi: nat)
    ensures L3Due(a, env, lo, hi) <==> L3Range(a, env) == Some(Candidate(lo, hi))
  {
    hide Summarisable, SummaryRange, DbIds;
    RangeExactly(Msgs(a), env.keepRecent, lo, hi);
    if SummaryRange(Msgs(a), env.keepRecent) == Some(Candidate(lo, hi)) {
      RangeInside(Msgs(a), env.keepRecent);
      StoredIds(a[lo..hi]);
      assert Stored(a, lo, hi) <==> exists k :: 0 <= k < |a[lo..hi]| && a[lo..hi][k].dbId.Some? by {
        assert forall k :: lo <= k < hi ==> a[lo..hi][k - lo] == a[k];
      }
    }
  }

  lemma RangeInside(ms: seq<Message>, keepRecent: int)
    ensures var r := SummaryRange(ms, keepRecent); r.Some? ==> r.value.start < r.value.end <= |ms|
  {
  }

  lemma RoundMatches(c: seq<Work>, env: Env, start: nat)
    ensures RoundDue(c, env, start) <==> RoundToSummarize(c, env, false) == Some(start)
  {
    hide IsRound, LatestRound, DbIds;
    RoundExactly(Msgs(c), start);
    if LatestRound(Msgs(c)) == Some(start) {
      StoredIds(c[start..]);
      assert forall k :: start <= k < |c| ==> c[start..][k - start] == c[k];
    }
  }

  lemma RoundIsDone(c: seq<Work>, env: Env, text: string, start: nat)
    requires start <= |c| && forall k :: start < k < |c| ==> c[k].msg.role == Tool
    ensures RoundDone(c, env, text, start, MaskRound(c, start, RoundSummary(env, text)))
  {
    hide MaskPlaceholder, MaskedArguments;
    var out := MaskRound(c, start, RoundSummary(env, text));
    forall k | start <= k < |c| ensures out[k] == c[k].(msg := out[k].msg) && ReducedAs(c[k].msg, out[k].msg) {
      assert out[k] == MaskRoundWork(c[k]);
    }
  }

  lemma ChangedWorks(ws: seq<Work>, keepRecent: int, force: set<string>)
    ensures var a := MaskAll(ws, keepRecent, force);
      MaskedAt(ws, keepRecent, force) == set i: nat | i < |ws| && a[i] != ws[i]
  {
    hide MaskMessage;
  }

  lemma UnderBudgetActs(ws: seq<Work>, env: Env)
    ensures MaskedOnly(ws, MaskAll(ws, MAX_SAFE_INTEGER, env.force), DisplayPayload(ws, env.force))
  {
    hide MaskAll, DbIds, Pick, MaskedAt;
    var a := MaskAll(ws, MAX_SAFE_INTEGER, env.force);
    ChangedWorks(ws, MAX_SAFE_INTEGER, env.force);
    PickedIfChanged(ws, a);
    var hit := Pick(ws, MaskedAt(ws, MAX_SAFE_INTEGER, env.force));
    assert DbIds(hit) + [] == DbIds(hit);
  }

  lemma PickedIfChanged(ws: seq<Work>, a: seq<Work>)
    requires |a| == |ws|
    ensures Pick(ws, set i: nat | i < |ws| && a[i] != ws[i]) == [] <==> a == ws
  {
    hide Pick;
    var changed := set i: nat | i < |ws| && a[i] != ws[i];
    if a == ws {
      assert changed == {};
      PickNothing(ws);
    } else {
      var i: nat :| i < |ws| && a[i] != ws[i];
      PickHits(ws, changed, i);
    }
  }

  lemma {:induction false} PickNothing<T>(s: seq<T>)
    ensures Pick(s, {}) == []
  {
    if s != [] {
      PickNothing(s[..|s| - 1]);
    }
  }

  lemma {:induction false} PickHits<T>(s: seq<T>, keep: set<nat>, i: nat)
    requires i < |s| && i in keep
    ensures Pick(s, keep) != []
  {
    if i < |s| - 1 {
      PickHits(s[..|s| - 1], keep, i);
    }
  }

  /** The list of what L1 changed is the one that the report is made of. */
  lemma ReportIs(ws: seq<Work>, env: Env, r: Outcome, round: seq<int>)
    requires r.Compacted?
    requires var hit := Pick(ws, MaskedAt(ws, env.keepRecent, env.force));
      r.collapsedIds == DbIds(hit) + round && r.masked == |hit| + |round|
    ensures ReportsMasked(ws, MaskAll(ws, env.keepRecent, env.force), r, round)
  {
    hide MaskAll, DbIds, Pick, MaskedAt;
    ChangedWorks(ws, env.keepRecent, env.force);
  }

  lemma NoMore(ids: seq<int>)
    ensures ids + [] == ids
  {
  }

  lemma L3CutActs(ws: seq<Work>, env: Env, l3: string, round: Option<string>)
    requires env.est(Msgs(ws)) >= env.budget && RangeOf(ws, env).Some?
    ensures SummarisedThenCut(ws, MaskAll(ws, env.keepRecent, env.force), env, l3, RunCascade(ws, env, Some(l3), round))
  {
    hide MaskAll, L3Range, L3Due, DbIds, Pick, Windows, WindowOf, MaskedAt, ReportsMasked, Splice, LatestRound;
    var a := MaskAll(ws, env.keepRecent, env.force);
    var range := RangeOf(ws, env).value;
    L3Matches(a, env, range.start, range.end);
    RangeOfInside(ws, env);
    var b := AfterSummary(ws, env, Some(l3));
    L3Puts(a, env, l3, range, b);
    WindowActs(b, env);
    NoMore(DbIds(Pick(ws, MaskedAt(ws, env.keepRecent, env.force))));
    ReportIs(ws, env, RunCascade(ws, env, Some(l3), round), []);
  }

  lemma L3Puts(a: seq<Work>, env: Env, text: string, range: Candidate, b: seq<Work>)
    requires L3Due(a, env, range.start, range.end) && range.start <= range.end <= |a|
    requires b == Splice(a, range, SummaryMessage(env, text))
    ensures Summarised(a, env, text, b, DbIds(a[range.start..range.end]))
  {
    hide L3Due, DbIds;
  }

  lemma RangeOfInside(ws: seq<Work>, env: Env)
    ensures var r := RangeOf(ws, env); r.Some? ==> r.value.start < r.value.end <= |ws|
  {
    hide SummaryRange;
    RangeInside(Msgs(MaskAll(ws, env.keepRecent, env.force)), env.keepRecent);
  }

  lemma RoundReport(ws: seq<Work>, env: Env, c: seq<Work>, start: nat, text: string, r: Outcome)
    requires RoundToSummarize(c, env, false) == Some(start) && |c| <= |ws|
    requires r == Assemble(c, Some(start), Some(RoundSummary(env, text)), Pick(ws, MaskedAt(ws, env.keepRecent, env.force)),
                           [], None, |ws| - |c|)
    ensures RoundSummarised(ws, MaskAll(ws, env.keepRecent, env.force), c, env, text, r)
  {
    RoundShape(c, env);
    RoundMatches(c, env, start);
    hide *;
    RoundReportedFrom(ws, env, c, start, text, r);
    RoundIsReported(ws, MaskAll(ws, env.keepRecent, env.force), c, env, text, r, start);
  }

  lemma RoundIsReported(ws: seq<Work>, a: seq<Work>, c: seq<Work>, env: Env, text: string, r: Outcome, start: nat)
    requires |a| == |ws| && r.Compacted? && r.dropped == |a| - |c| && r.summarizedIds == []
    requires RoundDue(c, env, start) && SummarisedFrom(ws, a, c, env, text, r, start)
    ensures RoundSummarised(ws, a, c, env, text, r)
  {
    hide RoundDue, SummarisedFrom;
  }

  lemma RoundReportedFrom(ws: seq<Work>, env: Env, c: seq<Work>, start: nat, text: string, r: Outcome)
    requires start < |c| <= |ws| && |DbIds(c[start..])| == |c| - start && forall k :: start < k < |c| ==> c[k].msg.role == Tool
    requires r == Assemble(c, Some(start), Some(RoundSummary(env, text)), Pick(ws, MaskedAt(ws, env.keepRecent, env.force)),
                           [], None, |ws| - |c|)
    ensures r.dropped == |ws| - |c| && r.summarizedIds == []
    ensures SummarisedFrom(ws, MaskAll(ws, env.keepRecent, env.force), c, env, text, r, start)
  {
    hide MaskAll, DbIds, Pick, MaskedAt, RoundDone, MaskRound, ReportsMasked, RoundSummary;
    RoundIsDone(c, env, text, start);
    RoundSummaryLast(c, env, text, start);
    ReportIs(ws, env, r, DbIds(c[start..]));
  }

  lemma RoundSummaryLast(c: seq<Work>, env: Env, text: string, start: nat)
    requires start <= |c|
    ensures MaskRound(c, start, RoundSummary(env, text))[|c|].msg == RoundSummary(env, text)
  {
  }

  lemma CutReport(ws: seq<Work>, env: Env, c: seq<Work>, r: Outcome)
    requires |c| <= |ws|
    requires r == Assemble(c, None, None, Pick(ws, MaskedAt(ws, env.keepRecent, env.force)), [], None, |ws| - |c|)
    ensures OnlyCut(ws, MaskAll(ws, env.keepRecent, env.force), c, r)
  {
    hide MaskAll, DbIds, Pick, MaskedAt, ReportsMasked;
    NoMore(DbIds(Pick(ws, MaskedAt(ws, env.keepRecent, env.force))));
    ReportIs(ws, env, r, []);
  }

  lemma CutRoundActs(ws: seq<Work>, env: Env, l3: Option<string>, round: Option<string>)
    requires env.est(Msgs(ws)) >= env.budget && RangeOf(ws, env).None?
    ensures CutThenRound(ws, MaskAll(ws, env.keepRecent, env.force), env, round, RunCascade(ws, env, l3, round))
  {
    hide MaskAll, L3Range, DbIds, Pick, Windows, WindowOf, MaskedAt, RoundDue, RoundSummarised, OnlyCut, RoundToSummarize,
         LatestRound, Assemble;
    var a := MaskAll(ws, env.keepRecent, env.force);
    var c := AfterWindow(ws, env, l3);
    WindowActs(a, env);
    assert Windows(a, env, c);
    var recent := RoundToSummarize(c, env, false);
    forall s: nat ensures RoundDue(c, env, s) <==> recent == Some(s) {
      RoundMatches(c, env, s);
    }
    if recent.None? {
      CutReport(ws, env, c, RunCascade(ws, env, l3, round));
    } else if round.Some? {
      RoundReport(ws, env, c, recent.value, round.value, RunCascade(ws, env, l3, round));
    }
  }

  lemma RoundShape(c: seq<Work>, env: Env)
    ensures var r := RoundToSummarize(c, env, false);
      r.Some? ==> r.value < |c| && |DbIds(c[r.value..])| == |c| - r.value
                  && forall k :: r.value < k < |c| ==> c[k].msg.role == Tool
  {
    hide DbIds;
    assert forall k :: 0 <= k < |c| ==> Msgs(c)[k] == c[k].msg;
  }

  lemma UnderBudget(ws: seq<Work>, env: Env, l3: Option<string>, round: Option<string>)
    requires env.est(Msgs(ws)) < env.budget
    ensures Acts(ws, env, l3, round, RunCascade(ws, env, l3, round))
  {
    MaskAllMasks(ws, MAX_SAFE_INTEGER, env.force);
    UnderBudgetActs(ws, env);
    hide Masks, MaskedOnly, DisplayPayload;
    assert RunCascade(ws, env, l3, round) == DisplayPayload(ws, env.force);
  }

  lemma OverBudget(ws: seq<Work>, env: Env, l3: Option<string>, round: Option<string>)
    requires env.est(Msgs(ws)) >= env.budget
    ensures var a, r := MaskAll(ws, env.keepRecent, env.force), RunCascade(ws, env, l3, round);
      if RangeOf(ws, env).None? then CutThenRound(ws, a, env, round, r)
      else if l3.None? then r == Threw else SummarisedThenCut(ws, a, env, l3.value, r)
  {
    if RangeOf(ws, env).None? {
      CutRoundActs(ws, env, l3, round);
    } else if l3.Some? {
      L3CutActs(ws, env, l3.value, round);
    }
  }

  lemma ReducesAs(ws: seq<Work>, env: Env, l3: Option<string>, round: Option<string>)
    requires env.est(Msgs(ws)) >= env.budget
    ensures Reduces(ws, MaskAll(ws, env.keepRecent, env.force), env, l3, round, RunCascade(ws, env, l3, round))
  {
    hide L3Due, SummarisedThenCut, CutThenRound, L3Range, MaskAll, RunCascade;
    var a := MaskAll(ws, env.keepRecent, env.force);
    OverBudget(ws, env, l3, round);
    forall lo: nat, hi: nat ensures L3Due(a, env, lo, hi) <==> RangeOf(ws, env) == Some(Candidate(lo, hi)) {
      L3Matches(a, env, lo, hi);
    }
  }

  /** For every list, setting and answers, the cascade does exactly that. */
  lemma CascadeActs(ws: seq<Work>, env: Env, l3: Option<string>, round: Option<string>)
    ensures Acts(ws, env, l3, round, RunCascade(ws, env, l3, round))
  {
    hide Masks, Reduces, MaskedOnly, MaskAll, RunCascade;
    if env.est(Msgs(ws)) < env.budget {
      UnderBudget(ws, env, l3, round);
    } else {
      var a := MaskAll(ws, env.keepRecent, env.force);
      MaskAllMasks(ws, env.keepRecent, env.force);
      assert Masks(ws, a, env.keepRecent, env.force);
      ReducesAs(ws, env, l3, round);
    }
  }
}
