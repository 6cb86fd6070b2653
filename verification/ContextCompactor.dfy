/** The compaction strategy in the form the server runs it: wrappers are rewritten in place and the
    list is spliced. Each method is tied to the value-level cascade. */
module ContextCompactor {
  import opened Wrappers
  import opened Messages
  import opened Lists
  import opened Compaction
  import opened Cascade
  import CascadeActs
  import Segments

  class WorkingMessage {
    var msg: Message
    var dbId: Option<int>
    const synthetic: bool

    constructor (msg: Message, dbId: Option<int>, synthetic: bool)
      ensures View() == Work(msg, dbId, synthetic)
    {
      this.msg, this.dbId, this.synthetic := msg, dbId, synthetic;
    }

    function View(): Work
      reads this
    {
      Work(msg, dbId, synthetic)
    }
  }

  function ViewAll(items: seq<WorkingMessage>): (r: seq<Work>)
    reads items
    ensures |r| == |items|
    ensures forall i :: 0 <= i < |items| ==> r[i] == items[i].View()
  {
    seq(|items|, i requires 0 <= i < |items| reads items => items[i].View())
  }

  predicate Separate(items: seq<WorkingMessage>) {
    forall i, j :: 0 <= i < j < |items| ==> items[i] != items[j]
  }

  /** What the list must satisfy for `Set` membership to mean position: entries and messages are
      distinct objects, and the summary to be added is a new one. */
  ghost predicate WellFormed(ws: seq<Work>, env: Env) {
    && DistinctTags(Msgs(ws))
    && forall i :: 0 <= i < |ws| ==> ws[i].msg.tag != env.summaryTag
  }

  // ----- L1 in place -----

  predicate NewlyMasked(before: Message, after: Message) {
    after.collapsed == Masked && before.collapsed != Masked
  }

  lemma DbIdsStep(hit: seq<Work>, w: Work)
    ensures DbIds(hit + [w]) == DbIds(hit) + if w.dbId.Some? then [w.dbId.value] else []
  {
    assert (hit + [w])[..|hit|] == hit;
  }

  lemma PickStep<T>(s: seq<T>, keep: set<nat>, n: nat)
    requires n < |s|
    ensures Pick(s[..n + 1], keep) == if n in keep then Pick(s[..n], keep) + [s[n]] else Pick(s[..n], keep)
  {
    assert s[..n + 1][..n] == s[..n];
  }

  lemma HitStep(ws: seq<Work>, at: set<nat>, n: nat)
    requires n < |ws|
    ensures n !in at ==> Pick(ws[..n + 1], at) == Pick(ws[..n], at)
    ensures n in at ==> |Pick(ws[..n + 1], at)| == |Pick(ws[..n], at)| + 1
    ensures n in at ==>
      DbIds(Pick(ws[..n + 1], at)) == DbIds(Pick(ws[..n], at)) + if ws[n].dbId.Some? then [ws[n].dbId.value] else []
  {
    PickStep(ws, at, n);
    DbIdsStep(Pick(ws[..n], at), ws[n]);
  }

  /** One wrapper gets another message. */
  method WriteOne(items: seq<WorkingMessage>, i: nat, m: Message)
    requires Separate(items) && i < |items|
    modifies {items[i]}`msg
    ensures forall k :: 0 <= k < |items| ==>
      items[k].View() == if k == i then old(items[k].View()).(msg := m) else old(items[k].View())
  {
    items[i].msg := m;
  }

  /** Writes the masked messages back, wrapper by wrapper, and collects the ids of those that changed. */
  method WriteMasked(items: seq<WorkingMessage>, m2: seq<Message>) returns (collapsedIds: seq<int>, masked: nat)
    requires Separate(items) && |m2| == |items|
    requires forall i :: 0 <= i < |items| ==> (m2[i] != items[i].msg <==> NewlyMasked(items[i].msg, m2[i]))
    modifies items
    ensures forall k :: 0 <= k < |items| ==> items[k].View() == old(items[k].View()).(msg := m2[k])
    ensures var ws := old(ViewAll(items));
      var hit := Pick(ws, ChangedAt(Msgs(ws), m2));
      collapsedIds == DbIds(hit) && masked == |hit|
  {
    ghost var ws := ViewAll(items);
    ghost var at := ChangedAt(Msgs(ws), m2);
    collapsedIds, masked := [], 0;
    assert Pick(ws[..0], at) == [] && DbIds([]) == [];
    hide Pick, DbIds, ChangedAt, Msgs;
    for i := 0 to |items|
      invariant forall k :: 0 <= k < i ==> items[k].View() == ws[k].(msg := m2[k])
      invariant forall k :: i <= k < |items| ==> items[k].View() == ws[k]
      invariant masked == |Pick(ws[..i], at)|
      invariant collapsedIds == DbIds(Pick(ws[..i], at))
    {
      HitStep(ws, at, i);
      assert items[i].View() == ws[i];
      hide Separate;
      if NewlyMasked(items[i].msg, m2[i]) {
        WriteOne(items, i, m2[i]);
        masked := masked + 1;
        if items[i].dbId.Some? {
          collapsedIds := collapsedIds + [items[i].dbId.value];
        }
      }
    }
    assert ws[..|items|] == ws;
  }

  lemma MaskingIsNew(ws: seq<Work>, keepRecent: int, force: set<string>, i: nat)
    requires i < |ws|
    ensures var a := MaskAll(ws, keepRecent, force);
      && a[i] == ws[i].(msg := a[i].msg)
      && (a[i].msg != ws[i].msg <==> NewlyMasked(ws[i].msg, a[i].msg))
  {
  }

  method MaskPayloads(items: seq<WorkingMessage>, keepRecent: int, force: set<string>)
    returns (collapsedIds: seq<int>, masked: nat)
    requires Separate(items)
    modifies items
    ensures ViewAll(items) == MaskAll(old(ViewAll(items)), keepRecent, force)
    ensures var ws := old(ViewAll(items));
      var hit := Pick(ws, MaskedAt(ws, keepRecent, force));
      collapsedIds == DbIds(hit) && masked == |hit|
  {
    ghost var ws := ViewAll(items);
    var m2 := Msgs(MaskAll(ViewAll(items), keepRecent, force));
    forall i | 0 <= i < |items| ensures m2[i] != items[i].msg <==> NewlyMasked(items[i].msg, m2[i]) {
      MaskingIsNew(ws, keepRecent, force, i);
    }
    collapsedIds, masked := WriteMasked(items, m2);
    forall i | 0 <= i < |items| ensures ViewAll(items)[i] == MaskAll(ws, keepRecent, force)[i] {
      MaskingIsNew(ws, keepRecent, force, i);
    }
  }

  // ----- The most recent tool round -----

  method LatestCompleteToolRound(ms: seq<Message>) returns (r: Option<nat>)
    ensures r == LatestRound(ms)
  {
    var first: nat := |ms|;
    while first > 0 && ms[first - 1].role == Tool
      invariant first <= |ms|
      invariant FirstResult(ms, first) == FirstResult(ms, |ms|)
    {
      first := first - 1;
    }
    if first == |ms| || first == 0 || !CallsTools(ms[first - 1]) {
      return None;
    }
    var expected := IdsOf(ms[first - 1].toolCalls);
    var actual := set k | first <= k < |ms| :: ms[k].toolCallId;
    if |ms| - first != |expected| || |actual| != |expected|
       || exists k :: first <= k < |ms|
            && !(ms[k].toolCallId.Some? && ms[k].toolCallId.value != "" && ms[k].toolCallId.value in expected) {
      return None;
    }
    return Some(first - 1);
  }

  method MaskRoundInPlace(items: seq<WorkingMessage>, start: nat)
    requires Separate(items) && start <= |items|
    modifies items[start..]
    ensures forall k :: 0 <= k < start ==> items[k].View() == old(items[k].View())
    ensures forall k :: start <= k < |items| ==> items[k].View() == MaskRoundWork(old(items[k].View()))
  {
    hide MaskRoundMessage;
    for i := start to |items|
      invariant forall k :: 0 <= k < start || i <= k < |items| ==> items[k].View() == old(items[k].View())
      invariant forall k :: start <= k < i ==> items[k].View() == MaskRoundWork(old(items[k].View()))
    {
      assert items[i] == items[start..][i - start];
      items[i].msg := MaskRoundMessage(items[i].msg);
    }
  }

  // ----- Selecting entries by the identity of their messages -----

  lemma PickView(items: seq<WorkingMessage>, keep: set<nat>)
    ensures Pick(ViewAll(items), keep) == ViewAll(Pick(items, keep))
  {
    if items != [] {
      PickView(items[..|items| - 1], keep);
      assert ViewAll(items)[..|items| - 1] == ViewAll(items[..|items| - 1]);
    }
  }

  lemma PickSeparate(items: seq<WorkingMessage>, keep: set<nat>)
    requires Separate(items)
    ensures Separate(Pick(items, keep))
  {
    if items != [] {
      var n: nat := |items| - 1;
      var t := items[..n];
      PickSeparate(t, keep);
      PickMembers(t, keep, items[n]);
    }
  }

  lemma IdentityKeeps(ms: seq<Message>, keep: set<nat>, i: nat)
    requires DistinctTags(ms) && i < |ms|
    ensures ms[i] in Pick(ms, keep) <==> i in keep
  {
    PickMembers(ms, keep, ms[i]);
    if ms[i] in Pick(ms, keep) {
      var k: nat :| k < |ms| && k in keep && ms[k] == ms[i];
      assert ms[k].tag == ms[i].tag;
    }
  }

  /** L2 on wrappers: those whose message the window returned. */
  method ApplyWindow(items: seq<WorkingMessage>, keepRecent: int) returns (kept: seq<WorkingMessage>)
    requires Separate(items) && DistinctTags(Msgs(ViewAll(items)))
    ensures Separate(kept)
    ensures ViewAll(kept) == Pick(ViewAll(items), WindowKeeps(Msgs(ViewAll(items)), keepRecent))
    ensures forall i :: 0 <= i < |kept| ==> kept[i] in items
  {
    var ms := Msgs(ViewAll(items));
    var out, dropped := SlidingWindow(ms, keepRecent);
    ghost var window := WindowKeeps(ms, keepRecent);
    kept := items;
    if dropped > 0 {
      var members := set m | m in out;
      kept := Pick(items, KeptEntries(ms, members));
      forall i: nat | i < |ms| ensures i in KeptEntries(ms, members) <==> i in window {
        IdentityKeeps(ms, window, i);
      }
      assert KeptEntries(ms, members) == window;
      PickView(items, window);
      PickSeparate(items, window);
      forall i | 0 <= i < |kept| ensures kept[i] in items {
        PickMembers(items, window, kept[i]);
      }
    } else {
      PickOfFullLength(ms, window);
      PickOfMap(MsgOf, ViewAll(items), window);
      PickOfFullLength(ViewAll(items), window);
    }
  }

  function KeptEntries(ms: seq<Message>, members: set<Message>): (r: set<nat>)
    ensures forall i: nat :: i in r <==> i < |ms| && ms[i] in members
  {
    set i: nat | i < |ms| && ms[i] in members
  }

  // ----- L3 on wrappers -----

  method ApplyL3(items: seq<WorkingMessage>, env: Env, l3: Option<string>)
    returns (out: seq<WorkingMessage>, summary: Option<Message>, ids: seq<int>, threw: bool)
    requires Separate(items)
    ensures Separate(out)
    ensures forall i :: 0 <= i < |out| ==> out[i] in items || fresh(out[i])
    ensures var ws := ViewAll(items);
      var range := L3Range(ws, env);
      && (threw <==> range.Some? && l3.None?)
      && (!threw ==>
            && summary == (if range.Some? then Some(SummaryMessage(env, l3.value)) else None)
            && ids == (if range.Some? then DbIds(ws[range.value.start..range.value.end]) else [])
            && ViewAll(out) == AfterL3(ws, range, summary))
  {
    hide L3Range, SummaryMessage, DbIds, Splice, Separate, ViewAll;
    out, summary, ids, threw := items, None, [], false;
    var range := ChooseRange(ViewAll(items), env);
    if range.Some? {
      if l3.None? {
        threw := true;
        return;
      }
      var c := range.value;
      ids := DbIds(ViewAll(items)[c.start..c.end]);
      summary := Some(SummaryMessage(env, l3.value));
      out := InsertSummary(items, c, summary.value);
    }
  }

  method InsertSummary(items: seq<WorkingMessage>, c: Candidate, summary: Message) returns (out: seq<WorkingMessage>)
    requires Separate(items) && c.start <= c.end <= |items|
    ensures Separate(out)
    ensures forall i :: 0 <= i < |out| ==> out[i] in items || fresh(out[i])
    ensures ViewAll(out) == Splice(ViewAll(items), c, summary)
  {
    var w := new WorkingMessage(summary, None, false);
    out := items[..c.start] + [w] + items[c.end..];
    ghost var target := Splice(ViewAll(items), c, summary);
    assert forall i :: 0 <= i < |out| ==> ViewAll(out)[i] == target[i];
  }

  /** Whether L3 asks the provider, and about which range. */
  method ChooseRange(ws: seq<Work>, env: Env) returns (r: Option<Candidate>)
    ensures r == L3Range(ws, env)
  {
    r := None;
    if env.hasProvider && env.est(Msgs(ws)) >= env.budget {
      var candidate := SummaryCandidate(Msgs(ws), env.keepRecent);
      if candidate.Some? && DbIds(ws[candidate.value.start..candidate.value.end]) != [] {
        r := candidate;
      }
    }
  }

  lemma SpliceTags(ws: seq<Work>, env: Env, range: Option<Candidate>, text: string)
    requires WellFormed(ws, env)
    requires range.Some? ==> range.value.start <= range.value.end <= |ws|
    ensures DistinctTags(Msgs(AfterL3(ws, range, Some(SummaryMessage(env, text)))))
  {
    if range.Some? {
      var out := Splice(ws, range.value, SummaryMessage(env, text));
      var c := range.value;
      forall i, j | 0 <= i < j < |out| ensures out[i].msg.tag != out[j].msg.tag {
        var oi := if i < c.start then i else c.end + (i - c.start - 1);
        var oj := if j < c.start then j else c.end + (j - c.start - 1);
        assert i != c.start ==> out[i] == ws[oi] && Msgs(ws)[oi] == ws[oi].msg;
        assert j != c.start ==> out[j] == ws[oj] && Msgs(ws)[oj] == ws[oj].msg;
      }
    }
  }

  lemma MaskedWellFormed(ws: seq<Work>, env: Env)
    requires WellFormed(ws, env)
    ensures WellFormed(MaskAll(ws, env.keepRecent, env.force), env)
  {
    var a := MaskAll(ws, env.keepRecent, env.force);
    assert forall i :: 0 <= i < |ws| ==> a[i].msg.tag == Msgs(ws)[i].tag;
  }

  // ----- The strategy -----

  datatype Result =
    | Nothing
    | Thrown
    | Done(items: seq<WorkingMessage>, masked: nat, summarized: nat, dropped: nat, collapsedIds: seq<int>,
           summarizedIds: seq<int>, summaryOfIds: Option<seq<int>>, summaryMessage: Option<Message>)

  /** A result with its wrappers replaced by what they hold. */
  ghost function Seen(r: Result): Outcome
    reads if r.Done? then r.items else []
  {
    match r
    case Nothing => Unchanged
    case Thrown => Threw
    case Done(items, masked, summarized, dropped, collapsedIds, summarizedIds, summaryOfIds, summaryMessage) =>
      Compacted(ViewAll(items), masked, summarized, dropped, collapsedIds, summarizedIds, summaryOfIds, summaryMessage)
  }

  /** The third stage, on the list that L1, L3 and L2 left behind. */
  method ApplyRound(items: seq<WorkingMessage>, env: Env, summarized: bool, ask: Segments.Asker)
    returns (out: seq<WorkingMessage>, summary: Option<Message>, ids: seq<int>, threw: bool, ghost round: Option<string>)
    requires Separate(items)
    modifies items
    ensures Separate(out)
    ensures forall i :: 0 <= i < |out| ==> out[i] in items || fresh(out[i])
    ensures var ws := old(ViewAll(items));
      var recent := RoundToSummarize(ws, env, summarized);
      && (threw <==> recent.Some? && round.None?)
      && (!threw ==>
            && summary == (if recent.Some? then Some(RoundSummary(env, round.value)) else None)
            && ids == (if recent.Some? then DbIds(ws[recent.value..]) else [])
            && ViewAll(out) == if recent.Some? then MaskRound(ws, recent.value, summary.value) else ws)
  {
    hide RoundToSummarize, MaskRound, RoundSummary, DbIds, Separate, Segments.ChunksTell, Segments.ChunksOf,
         Segments.MergesByLevel, Segments.AnswerTo;
    out, summary, ids, threw, round := items, None, [], false, None;
    ghost var ws := ViewAll(items);
    var recent := ChooseRound(ViewAll(items), env, summarized);
    if recent.Some? {
      ids := DbIds(ViewAll(items)[recent.value..]);
      var body, sent, chunks := Segments.SummarizeRecentToolRound(Msgs(ViewAll(items))[recent.value..], env.budget, ask);
      round := body;
      if body.None? {
        threw := true;
        return;
      }
      summary := Some(RoundSummary(env, body.value));
      out := MaskAndAppend(items, recent.value, summary.value);
    }
  }

  /** Whether the third stage summarises the recent tool round, and where that starts. */
  method ChooseRound(ws: seq<Work>, env: Env, summarized: bool) returns (r: Option<nat>)
    ensures r == RoundToSummarize(ws, env, summarized)
  {
    r := None;
    if !summarized && env.hasProvider && env.est(Msgs(ws)) >= env.budget {
      var recent := LatestCompleteToolRound(Msgs(ws));
      if recent.Some? && |DbIds(ws[recent.value..])| == |ws| - recent.value {
        r := recent;
      }
    }
  }

  method MaskAndAppend(items: seq<WorkingMessage>, start: nat, summary: Message) returns (out: seq<WorkingMessage>)
    requires Separate(items) && start <= |items|
    modifies items
    ensures Separate(out)
    ensures forall i :: 0 <= i < |out| ==> out[i] in items || fresh(out[i])
    ensures ViewAll(out) == MaskRound(old(ViewAll(items)), start, summary)
  {
    ghost var ws := ViewAll(items);
    MaskRoundInPlace(items, start);
    var w := new WorkingMessage(summary, None, false);
    out := items + [w];
    ghost var target := MaskRound(ws, start, summary);
    assert forall k :: 0 <= k < |out| ==> out[k].View() == target[k];
  }

  /** Under budget: only the payloads of forced tools. */
  method CompactDisplayPayload(input: seq<WorkingMessage>, force: set<string>) returns (r: Result)
    requires Separate(input)
    modifies input
    ensures Seen(r) == DisplayPayload(old(ViewAll(input)), force)
    ensures r.Done? ==> r.items == input
  {
    hide MaskedAt, MaskAll, Pick, DbIds, Separate;
    var ids, masked := MaskPayloads(input, MAX_SAFE_INTEGER, force);
    r := if masked > 0 then Done(input, masked, 0, 0, ids, [], None, None) else Nothing;
  }

  /** The first three stages: L1, L3, L2. */
  method Shrink(input: seq<WorkingMessage>, env: Env, l3: Option<string>)
    returns (items: seq<WorkingMessage>, summary: Option<Message>, collapsedIds: seq<int>, masked: nat,
             l3Ids: seq<int>, dropped: nat, threw: bool)
    requires Separate(input) && WellFormed(ViewAll(input), env)
    modifies input
    ensures Separate(items)
    ensures forall i :: 0 <= i < |items| ==> items[i] in input || fresh(items[i])
    ensures var ws := old(ViewAll(input));
      var hit := Pick(ws, MaskedAt(ws, env.keepRecent, env.force));
      && (threw <==> RangeOf(ws, env).Some? && l3.None?)
      && collapsedIds == DbIds(hit) && masked == |hit|
      && (!threw ==>
            && ViewAll(items) == AfterWindow(ws, env, l3)
            && dropped == |AfterSummary(ws, env, l3)| - |items|
            && summary == L3Message(ws, env, l3)
            && l3Ids == L3Ids(ws, env))
  {
    ghost var ws := ViewAll(input);
    hide MaskAll, L3Range, Pick, MaskedAt, WellFormed, Separate, DbIds, SummaryMessage, Splice, WindowKeeps,
         DistinctTags, Positions;
    collapsedIds, masked := MaskPayloads(input, env.keepRecent, env.force);
    MaskedWellFormed(ws, env);
    items, summary, l3Ids, threw := ApplyL3(input, env, l3);
    dropped := 0;
    if threw {
      return;
    }
    SpliceTags(ViewAll(input), env, RangeOf(ws, env), if l3.Some? then l3.value else "");
    var before := |items|;
    if env.est(Msgs(ViewAll(items))) >= env.budget {
      items := ApplyWindow(items, env.keepRecent);
    } else {
      PickAll(ViewAll(items), Positions(|items|));
    }
    dropped := before - |items|;
  }

  /** The last stage and the report. */
  method Finish(items: seq<WorkingMessage>, env: Env, summary: Option<Message>, ask: Segments.Asker,
                ghost hit: seq<Work>, collapsedIds: seq<int>, masked: nat, l3Ids: seq<int>, dropped: nat)
    returns (r: Result, ghost round: Option<string>)
    requires Separate(items)
    requires collapsedIds == DbIds(hit) && masked == |hit|
    modifies items
    ensures var c := old(ViewAll(items));
      var recent := RoundToSummarize(c, env, summary.Some?);
      Seen(r) == if recent.Some? && round.None? then Threw
                 else Assemble(c, recent, if recent.Some? then Some(RoundSummary(env, round.value)) else None,
                               hit, l3Ids, summary, dropped)
    ensures r.Done? ==> Separate(r.items)
    ensures r.Done? ==> forall i :: 0 <= i < |r.items| ==> r.items[i] in items || fresh(r.items[i])
  {
    hide RoundToSummarize, MaskRound, RoundSummary, DbIds, ViewAll, Separate, LatestRound, Msgs;
    var out, roundSummary, roundIds, threw;
    out, roundSummary, roundIds, threw, round := ApplyRound(items, env, summary.Some?, ask);
    if threw {
      r := Thrown;
    } else if roundSummary.Some? {
      r := Done(out, masked + |roundIds|, |roundIds|, dropped, collapsedIds + roundIds, [], Some(roundIds), roundSummary);
    } else {
      r := Done(out, masked, |l3Ids|, dropped, collapsedIds, l3Ids, None, summary);
    }
  }

  lemma CascadeStopsEarly(ws: seq<Work>, env: Env, l3: Option<string>, round: Option<string>)
    ensures env.est(Msgs(ws)) < env.budget ==> RunCascade(ws, env, l3, round) == DisplayPayload(ws, env.force)
    ensures env.est(Msgs(ws)) >= env.budget && RangeOf(ws, env).Some? && l3.None? ==> RunCascade(ws, env, l3, round) == Threw
  {
    hide RangeOf, DisplayPayload;
  }

  lemma CascadeIsAssembled(ws: seq<Work>, env: Env, l3: Option<string>, round: Option<string>)
    requires env.est(Msgs(ws)) >= env.budget && (RangeOf(ws, env).Some? ==> l3.Some?)
    ensures var c := AfterWindow(ws, env, l3);
      var recent := RoundToSummarize(c, env, L3Message(ws, env, l3).Some?);
      RunCascade(ws, env, l3, round)
      == if recent.Some? && round.None? then Threw
         else Assemble(c, recent, if recent.Some? then Some(RoundSummary(env, round.value)) else None,
                       Pick(ws, MaskedAt(ws, env.keepRecent, env.force)), L3Ids(ws, env), L3Message(ws, env, l3),
                       |AfterSummary(ws, env, l3)| - |c|)
  {
    hide RangeOf, AfterWindow, AfterSummary, RoundToSummarize, MaskedAt, L3Ids, RoundSummary, Pick, Msgs, DbIds,
         LatestRound, SummaryRange, SummaryMessage, MaskRound, MaskAll, L3Range;
  }

  /** The current strategy: L1, then L3, then L2, then the recent tool round, each only while the list
      is over budget. It rewrites the wrappers it was given and adds at most one. */
  method Compact(input: seq<WorkingMessage>, env: Env, l3: Option<string>, ask: Segments.Asker)
    returns (r: Result, ghost round: Option<string>)
    requires Separate(input) && WellFormed(ViewAll(input), env)
    modifies input
    ensures Seen(r) == RunCascade(old(ViewAll(input)), env, l3, round)
    ensures CascadeActs.Acts(old(ViewAll(input)), env, l3, round, Seen(r))
    ensures r.Done? ==> Separate(r.items)
    ensures r.Done? ==> forall i :: 0 <= i < |r.items| ==> r.items[i] in input || fresh(r.items[i])
  {
    ghost var ws := ViewAll(input);
    hide CascadeActs.Acts, RunCascade, RangeOf, AfterWindow, AfterSummary, RoundToSummarize, MaskedAt, Assemble, L3Ids, L3Message,
         DisplayPayload, RoundSummary, Pick, DbIds, WellFormed, Separate;
    CascadeStopsEarly(ws, env, l3, None);
    round := None;
    if env.est(Msgs(ViewAll(input))) < env.budget {
      r := CompactDisplayPayload(input, env.force);
      CascadeActs.CascadeActs(ws, env, l3, round);
      return;
    }
    var items, summary, collapsedIds, masked, l3Ids, dropped, threw := Shrink(input, env, l3);
    if threw {
      CascadeActs.CascadeActs(ws, env, l3, None);
      return Thrown, None;
    }
    ghost var hit := Pick(ws, MaskedAt(ws, env.keepRecent, env.force));
    r, round := Finish(items, env, summary, ask, hit, collapsedIds, masked, l3Ids, dropped);
    CascadeIsAssembled(ws, env, l3, round);
    CascadeActs.CascadeActs(ws, env, l3, round);
  }
}
