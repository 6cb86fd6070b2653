/** The working list of one run: it hands clones to the compaction strategy, takes the result over, and
    reports which stored messages changed. */
module ContextManager {
  import opened Wrappers
  import opened Messages
  import opened Lists
  import opened Compaction
  import opened Cascade
  import opened CascadeProofs
  import opened ContextCompactor
  import opened GoalUpdates
  import opened Identities
  import opened WorkingList
  import Segments

  // ----- The report on stored messages -----

  datatype Action = SummarizedAway | MaskedInPlace | DroppedFromWindow

  datatype Affected = Affected(messageId: int, action: Action, role: Role)

  /** First occurrences only, in order. */
  function Dedup(s: seq<int>): (r: seq<int>)
    ensures forall x :: x in r <==> x in s
    ensures forall i, j :: 0 <= i < j < |r| ==> r[i] != r[j]
  {
    if s == [] then []
    else
      var r := Dedup(s[..|s| - 1]);
      var x := s[|s| - 1];
      assert s == s[..|s| - 1] + [x];
      if x in r then r else r + [x]
  }

  /** The message stored under `id`; a later entry overwrites an earlier one. */
  function FindById(ws: seq<Work>, id: int): (r: Option<Message>)
    ensures r.Some? <==> id in DbIds(ws)
  {
    if ws == [] then None
    else if ws[|ws| - 1].dbId == Some(id) then Some(ws[|ws| - 1].msg)
    else FindById(ws[..|ws| - 1], id)
  }

  function Missing(ids: seq<int>, after: seq<Work>, summarized: seq<int>): (r: seq<int>)
    ensures forall x :: x in r <==> x in ids && x !in DbIds(after) && x !in summarized
  {
    if ids == [] then []
    else
      var x := ids[|ids| - 1];
      assert ids == ids[..|ids| - 1] + [x];
      Missing(ids[..|ids| - 1], after, summarized)
      + (if x !in DbIds(after) && x !in summarized then [x] else [])
  }

  function ActionOf(id: int, collapsed: seq<int>, summarized: seq<int>): Action {
    if id in summarized then SummarizedAway else if id in collapsed then MaskedInPlace else DroppedFromWindow
  }

  function Entries(ids: seq<int>, before: seq<Work>, collapsed: seq<int>, summarized: seq<int>): (r: seq<Affected>)
    ensures forall k :: 0 <= k < |r| ==> r[k].messageId in ids && r[k].messageId in DbIds(before)
    ensures forall k :: 0 <= k < |r| ==> r[k].action == ActionOf(r[k].messageId, collapsed, summarized)
    ensures forall x :: x in ids && x in DbIds(before) ==> exists k :: 0 <= k < |r| && r[k].messageId == x
    ensures (forall i, j :: 0 <= i < j < |ids| ==> ids[i] != ids[j]) ==>
              forall i, j :: 0 <= i < j < |r| ==> r[i].messageId != r[j].messageId
  {
    if ids == [] then []
    else
      var x := ids[|ids| - 1];
      var front := ids[..|ids| - 1];
      assert ids == front + [x];
      var r := Entries(front, before, collapsed, summarized);
      var m := FindById(before, x);
      if m.None? then r
      else
        var out := r + [Affected(x, ActionOf(x, collapsed, summarized), m.value.role)];
        assert forall y :: y in front && y in DbIds(before) ==>
          exists k :: 0 <= k < |r| && r[k] == out[k] && r[k].messageId == y;
        assert out[|r|].messageId == x;
        out
  }

  function AffectedMessages(before: seq<Work>, after: seq<Work>, collapsed: seq<int>, summarized: seq<int>): seq<Affected> {
    Entries(Dedup(collapsed + summarized + Missing(DbIds(before), after, summarized)), before, collapsed, summarized)
  }

  ghost predicate Reports(r: seq<Affected>, id: int) {
    exists k :: 0 <= k < |r| && r[k].messageId == id
  }

  /** Each changed id is listed once, with one label; nothing else is listed. */
  lemma AffectedExactly(before: seq<Work>, after: seq<Work>, collapsed: seq<int>, summarized: seq<int>, id: int)
    ensures var r := AffectedMessages(before, after, collapsed, summarized);
      && (forall i, j :: 0 <= i < j < |r| ==> r[i].messageId != r[j].messageId)
      && (Reports(r, id) <==>
            id in DbIds(before) && (id in collapsed || id in summarized || id !in DbIds(after)))
  {
    var ids := Dedup(collapsed + summarized + Missing(DbIds(before), after, summarized));
    var r := AffectedMessages(before, after, collapsed, summarized);
    if id in ids && id in DbIds(before) {
      var k :| 0 <= k < |r| && r[k].messageId == id;
    }
  }

  ghost predicate DistinctIds(ws: seq<Work>) {
    forall id :: IdBag(ws)[id] <= 1
  }

  lemma MissingIsDropped(all: seq<int>, kept: seq<int>, summarized: seq<int>, dropped: seq<int>, id: int)
    requires multiset(all) == multiset(kept) + multiset(summarized) + multiset(dropped)
    requires id in all && multiset(all)[id] <= 1
    ensures id !in kept && id !in summarized <==> id in dropped
    ensures id in dropped ==> id !in kept && id !in summarized
  {
    assert id in multiset(all);
    OneOfThree(multiset(all), multiset(kept), multiset(summarized), multiset(dropped), id);
    assert id in multiset(kept) <==> id in kept;
    assert id in multiset(summarized) <==> id in summarized;
    assert id in multiset(dropped) <==> id in dropped;
  }

  /** The report on a whole compaction: a stored message is listed exactly when L1 or the recent round
      masked it, L3 summarised it, or the window dropped it; and one that was masked first and dropped
      later is listed as masked, so `dropped` marks exactly the dropped messages L1 had left alone. */
  lemma ReportMatchesCascade(ws: seq<Work>, env: Env, l3: Option<string>, round: Option<string>, id: int)
    requires RunCascade(ws, env, l3, round).Compacted? && DistinctIds(ws) && id in DbIds(ws)
    ensures var r := RunCascade(ws, env, l3, round);
      var report := AffectedMessages(ws, r.items, r.collapsedIds, r.summarizedIds);
      var dropped := WindowDropped(ws, env, l3);
      && (Reports(report, id) <==> id in r.collapsedIds || id in r.summarizedIds || id in dropped)
      && (id !in r.collapsedIds && id !in r.summarizedIds ==>
            (ActionOf(id, r.collapsedIds, r.summarizedIds) == DroppedFromWindow
             && (Reports(report, id) <==> id in dropped)))
      && (id in dropped && id in r.collapsedIds ==> ActionOf(id, r.collapsedIds, r.summarizedIds) == MaskedInPlace)
  {
    var r := RunCascade(ws, env, l3, round);
    CascadeConservesIds(ws, env, l3, round);
    AffectedExactly(ws, r.items, r.collapsedIds, r.summarizedIds, id);
    MissingIsDropped(DbIds(ws), DbIds(r.items), r.summarizedIds, WindowDropped(ws, env, l3), id);
  }

  /** A message counted once is in exactly one of the three places. */
  lemma OneOfThree(all: multiset<int>, kept: multiset<int>, summarized: multiset<int>, dropped: multiset<int>, id: int)
    requires all == kept + summarized + dropped && all[id] == 1
    ensures kept[id] + summarized[id] + dropped[id] == 1
    ensures id !in kept && id !in summarized <==> id in dropped
  {
  }

  /** Each stored input message ends in exactly one place: the output list, the summary, or dropped. */
  lemma EachIdInOnePlace(ws: seq<Work>, env: Env, l3: Option<string>, round: Option<string>, id: int)
    requires RunCascade(ws, env, l3, round).Compacted? && DistinctIds(ws) && id in DbIds(ws)
    ensures var r := RunCascade(ws, env, l3, round);
      multiset(DbIds(r.items))[id] + multiset(r.summarizedIds)[id] + multiset(WindowDropped(ws, env, l3))[id] == 1
  {
    var r := RunCascade(ws, env, l3, round);
    CascadeConservesIds(ws, env, l3, round);
    OneOfThree(IdBag(ws), IdBag(r.items), multiset(r.summarizedIds), multiset(WindowDropped(ws, env, l3)), id);
  }

  // ----- The manager -----

  datatype Report =
    | NoChange
    | Failed
    | Changed(masked: nat, summarized: nat, dropped: nat, collapsedIds: seq<int>, summarizedIds: seq<int>,
              summaryOfIds: Option<seq<int>>, summaryMessage: Option<Message>, affected: seq<Affected>)

  /** The report that goes with an outcome of the cascade on `before`. */
  function ReportOf(before: seq<Work>, o: Outcome): Report {
    match o
    case Unchanged => NoChange
    case Threw => Failed
    case Compacted(items, masked, summarized, dropped, collapsedIds, summarizedIds, summaryOfIds, summaryMessage) =>
      Changed(masked, summarized, dropped, collapsedIds, summarizedIds, summaryOfIds, summaryMessage,
              AffectedMessages(before, items, collapsedIds, summarizedIds))
  }

  lemma CompactedIsDistinct(ws: seq<Work>, env: Env, l3: Option<string>)
    requires WellFormed(ws, env)
    ensures forall round :: RunCascade(ws, env, l3, round).Compacted? ==>
      DistinctTags(Msgs(RunCascade(ws, env, l3, round).items))
  {
    hide RunCascade, DistinctTags;
    forall round | RunCascade(ws, env, l3, round).Compacted?
      ensures DistinctTags(Msgs(RunCascade(ws, env, l3, round).items))
    {
      CascadeKeepsIdentities(ws, env, l3, round);
    }
  }

  lemma SameMessages(ws: seq<Work>)
    ensures |Msgs(ws)| == |ws| && Rewritten(ws, Msgs(ws)) == ws
  {
  }

  /** The list with one more message, which may supersede older plan updates. */
  function Added(ws: seq<Work>, msg: Message, dbId: Option<int>): (r: seq<Work>)
    ensures Msgs(r) == Pruned(Msgs(ws) + [msg])
  {
    Rewritten(ws + [Work(msg, dbId, false)], Pruned(Msgs(ws) + [msg]))
  }

  lemma AddedIsDistinct(ms: seq<Message>, msg: Message)
    requires DistinctTags(ms) && FreshTag(ms, msg.tag)
    ensures DistinctTags(Pruned(ms + [msg]))
  {
    hide Pruned;
    assert SameShapes(ms + [msg], Pruned(ms + [msg]));
    assert forall k :: 0 <= k <= |ms| ==> SameShape((ms + [msg])[k], Pruned(ms + [msg])[k]);
  }

  lemma NothingMasked(ws: seq<Work>, keepRecent: int, force: set<string>)
    requires Pick(ws, MaskedAt(ws, keepRecent, force)) == []
    ensures MaskAll(ws, keepRecent, force) == ws
  {
    hide MaskMessage;
    var masked := MaskAll(ws, keepRecent, force);
    forall i | 0 <= i < |ws| ensures masked[i] == ws[i] {
      if masked[i].msg != ws[i].msg {
        PickHolds(ws, MaskedAt(ws, keepRecent, force), i);
      }
    }
  }

  lemma {:induction false} PickHolds(ws: seq<Work>, keep: set<nat>, i: nat)
    requires i < |ws| && i in keep
    ensures ws[i] in Pick(ws, keep)
  {
    if i < |ws| - 1 {
      PickHolds(ws[..|ws| - 1], keep, i);
    }
  }

  lemma CollapsingIsNew(ms: seq<Message>, names: set<string>, i: nat)
    requires i < |ms|
    ensures CollapsedMsgs(ms, names)[i] != ms[i] <==> NewlyMasked(ms[i], CollapsedMsgs(ms, names)[i])
  {
  }

  /** What the map of call ids says; an unknown id has no name. */
  function Named(names: map<string, string>, id: string): string {
    if id in names then names[id] else ""
  }

  /** Later calls overwrite earlier ones with the same id. */
  function RecordNames(names: map<string, string>, calls: seq<ToolCall>): (r: map<string, string>)
    ensures forall id :: Named(r, id) == if LastName(calls, id).Some? then LastName(calls, id).value else Named(names, id)
  {
    if calls == [] then names
    else RecordNames(names, calls[..|calls| - 1])[calls[|calls| - 1].id := calls[|calls| - 1].name]
  }

  /** The loop over the calls. */
  method NamesOfCalls(ms: seq<Message>) returns (byCall: map<string, string>)
    ensures forall id :: Named(byCall, id) == NameOf(ms, id)
  {
    byCall := map[];
    for i := 0 to |ms|
      invariant forall id :: Named(byCall, id) == NameOf(ms[..i], id)
    {
      assert ms[..i + 1][..i] == ms[..i];
      byCall := RecordNames(byCall, ms[i].toolCalls);
    }
    assert ms[..|ms|] == ms;
  }

  /** The loop over the results. */
  method CollapseAll(ms: seq<Message>, names: set<string>) returns (r: seq<Message>)
    ensures r == CollapsedMsgs(ms, names)
  {
    hide NameOf, MaskPlaceholder, Named;
    var byCall := NamesOfCalls(ms);
    r := [];
    for i := 0 to |ms|
      invariant r == CollapsedMsgs(ms, names)[..i]
    {
      var m := ms[i];
      if m.role == Tool && m.collapsed == Intact && m.toolCallId.Some? && m.toolCallId.value != ""
         && Named(byCall, m.toolCallId.value) in names {
        m := m.(content := Some(MaskPlaceholder(m.Text())), collapsed := Masked);
      }
      assert m == CollapsedMsgs(ms, names)[i];
      r := r + [m];
    }
  }

  lemma SeparateSnoc(items: seq<WorkingMessage>, w: WorkingMessage)
    requires Separate(items) && w !in items
    ensures Separate(items + [w])
  {
  }

  lemma ViewOfInsert(base: seq<WorkingMessage>, at: nat, more: seq<WorkingMessage>)
    requires at <= |base|
    ensures ViewAll(base[..at] + more + base[at..]) == ViewAll(base)[..at] + ViewAll(more) + ViewAll(base)[at..]
  {
  }

  lemma SeparateInsert(base: seq<WorkingMessage>, at: nat, more: seq<WorkingMessage>)
    requires at <= |base| && Separate(base) && Separate(more) && forall w :: w in more ==> w !in base
    ensures Separate(base[..at] + more + base[at..])
  {
    var all := base[..at] + more + base[at..];
    assert forall k :: 0 <= k < at ==> all[k] == base[k];
    assert forall k :: at <= k < at + |more| ==> all[k] == more[k - at] && all[k] in more;
    assert forall k :: at + |more| <= k < |all| ==> all[k] == base[k - |more|];
  }

  method CountSystemFront(ms: seq<Message>) returns (n: nat)
    ensures n == SystemFront(ms)
  {
    n := 0;
    while n < |ms| && ms[n].role == System
      invariant n <= |ms| && n + SystemFront(ms[n..]) == SystemFront(ms)
    {
      assert ms[n..][1..] == ms[n + 1..];
      n := n + 1;
    }
  }

  class Manager {
    var items: seq<WorkingMessage>

    ghost predicate Valid()
      reads this, items
    {
      Separate(items) && DistinctTags(Msgs(ViewAll(items)))
    }

    constructor ()
      ensures Valid() && items == []
    {
      items := [];
    }

    /** New wrappers around the same messages. */
    method CloneItems() returns (copy: seq<WorkingMessage>)
      ensures ViewAll(copy) == ViewAll(items) && Separate(copy)
      ensures forall i :: 0 <= i < |copy| ==> fresh(copy[i])
    {
      copy := [];
      for i := 0 to |items|
        invariant |copy| == i && Separate(copy)
        invariant forall k :: 0 <= k < i ==> fresh(copy[k]) && copy[k].View() == items[k].View()
      {
        var w := new WorkingMessage(items[i].msg, items[i].dbId, items[i].synthetic);
        copy := copy + [w];
      }
    }

    /** Compacts on clones. Whatever the provider does, the wrappers of the old list keep what they held;
        when it throws, the list itself is the old one too. Otherwise the list becomes the result of
        the cascade and the report compares it with the untouched old list. */
    method MaybeCompact(env: Env, l3: Option<string>, ask: Segments.Asker) returns (r: Report, ghost round: Option<string>)
      requires Valid() && WellFormed(ViewAll(items), env)
      modifies this
      ensures ViewAll(old(items)) == old(ViewAll(items))
      ensures r == ReportOf(old(ViewAll(items)), RunCascade(old(ViewAll(items)), env, l3, round))
      ensures !r.Changed? ==> items == old(items)
      ensures r.Changed? ==> ViewAll(items) == RunCascade(old(ViewAll(items)), env, l3, round).items
      ensures r.Changed? ==> forall i :: 0 <= i < |items| ==> fresh(items[i])
      ensures Valid()
    {
      ghost var ws := ViewAll(items);
      var before := items;
      var copy := CloneItems();
      hide RunCascade, AffectedMessages, DistinctTags, WellFormed;
      CompactedIsDistinct(ws, env, l3);
      var result;
      result, round := Compact(copy, env, l3, ask);
      assert ViewAll(before) == ws;
      match result {
        case Nothing => r := NoChange;
        case Thrown => r := Failed;
        case Done(out, masked, summarized, dropped, collapsedIds, summarizedIds, summaryOfIds, summaryMessage) =>
          items := out;
          r := Changed(masked, summarized, dropped, collapsedIds, summarizedIds, summaryOfIds, summaryMessage,
                       AffectedMessages(ViewAll(before), ViewAll(out), collapsedIds, summarizedIds));
      }
    }

    /** Supersedes the older plan updates wrapper by wrapper. */
    method PruneSupersededGoalUpdates()
      requires Separate(items)
      modifies items
      ensures ViewAll(items) == Rewritten(old(ViewAll(items)), Pruned(Msgs(old(ViewAll(items)))))
    {
      hide PairsUpTo, IsPair, SupersedePair, SupersedeAll, SameShapes, ViewAll, Rewritten, Msgs, Pruned, Latest;
      ghost var ws := ViewAll(items);
      var ms := Msgs(ViewAll(items));
      SameMessages(ws);
      var ps := PairsUpTo(ms, |ms|);
      PrunedMeans(ms);
      if |ps| < 2 {
        return;
      }
      var latest := Latest(ps);
      SupersedeNone(ms, latest);
      for i := 0 to |ps|
        invariant |SupersedeAll(ms, ps[..i], latest)| == |ws|
        invariant ViewAll(items) == Rewritten(ws, SupersedeAll(ms, ps[..i], latest))
      {
        var p := ps[i];
        SupersedeStep(ms, ps, latest, i);
        if p != latest {
          SupersedeInPlace(p, ws, SupersedeAll(ms, ps[..i], latest));
        }
      }
      assert ps[..|ps|] == ps;
    }

    method SupersedeInPlace(p: Pair, ghost ws: seq<Work>, ghost now: seq<Message>)
      requires Separate(items) && |now| == |ws| && ViewAll(items) == Rewritten(ws, now)
      requires p.turn < |now| && p.result < |now| && p.turn != p.result && p.call < |now[p.turn].toolCalls|
      modifies items
      ensures ViewAll(items) == Rewritten(ws, SupersedePair(now, p))
    {
      ghost var target := Rewritten(ws, SupersedePair(now, p));
      assert forall k :: 0 <= k < |items| ==> items[k].View() == ws[k].(msg := now[k]);
      items[p.turn].msg := SupersedeCall(items[p.turn].msg, p.call);
      items[p.result].msg := items[p.result].msg.(content := Some(SUPERSEDED_RESULT));
      assert forall k :: 0 <= k < |items| ==> items[k].View() == target[k];
    }

    /** Appends a message under a new identity and prunes the plan updates it supersedes. */
    method Add(msg: Message, dbId: Option<int>)
      requires Valid()
      requires FreshTag(Msgs(ViewAll(items)), msg.tag)
      modifies this, items
      ensures Valid()
      ensures ViewAll(items) == Added(old(ViewAll(items)), msg, dbId)
    {
      hide DistinctTags, Pruned, ViewAll, Rewritten;
      ghost var ws := ViewAll(items);
      Append(msg, dbId);
      assert Msgs(ws + [Work(msg, dbId, false)]) == Msgs(ws) + [msg];
      PruneSupersededGoalUpdates();
      AddedIsDistinct(Msgs(ws), msg);
    }

    /** A new wrapper at the end of the list. */
    method Append(msg: Message, dbId: Option<int>)
      requires Separate(items)
      modifies this`items
      ensures Separate(items) && |items| == |old(items)| + 1 && items[..|old(items)|] == old(items)
      ensures fresh(items[|items| - 1])
      ensures ViewAll(items) == old(ViewAll(items)) + [Work(msg, dbId, false)]
    {
      ghost var before := ViewAll(items);
      var w := new WorkingMessage(msg, dbId, false);
      items := items + [w];
      assert ViewAll(items) == before + [Work(msg, dbId, false)];
    }

    /** Masks old payloads at the end of a run, on clones; nothing changes if there is nothing to mask. */
    method CompactForHistory(keepRecent: int, force: set<string>) returns (collapsedIds: seq<int>, masked: nat)
      requires Valid()
      modifies this`items
      ensures ViewAll(old(items)) == old(ViewAll(items))
      ensures ViewAll(items) == MaskAll(old(ViewAll(items)), keepRecent, force)
      ensures var ws := old(ViewAll(items));
        var hit := Pick(ws, MaskedAt(ws, keepRecent, force));
        collapsedIds == DbIds(hit) && masked == |hit|
      ensures masked == 0 ==> items == old(items)
      ensures Valid()
    {
      hide DistinctTags, MaskAll, MaskedAt, Pick, DbIds, OnlyTurnsCall, SameShapes;
      ghost var ws := ViewAll(items);
      var copy := CloneItems();
      collapsedIds, masked := MaskPayloads(copy, keepRecent, force);
      MaskAllShapes(ws, keepRecent, force);
      ShapesKeepIdentities(Msgs(ws), Msgs(MaskAll(ws, keepRecent, force)), 0);
      if masked > 0 {
        items := copy;
      } else {
        NothingMasked(ws, keepRecent, force);
      }
    }

    /** Collapses the results of these tools once they were read, on clones, unless none of them is stored. */
    method CollapseConsumedToolResults(names: set<string>) returns (collapsedIds: seq<int>)
      requires Valid()
      modifies this`items
      ensures ViewAll(old(items)) == old(ViewAll(items))
      ensures collapsedIds == CollapsedIds(old(ViewAll(items)), names)
      ensures ViewAll(items) == CollapsedList(old(ViewAll(items)), names)
      ensures Valid()
    {
      hide DistinctTags, Consumed, DbIds, Pick, ChangedAt, SameShapes;
      ghost var ws := ViewAll(items);
      var copy := CloneItems();
      var m2 := CollapseAll(Msgs(ViewAll(copy)), names);
      CollapseSpares(Msgs(ws), names);
      ShapesKeepIdentities(Msgs(ws), m2, 0);
      forall i | 0 <= i < |copy| ensures m2[i] != copy[i].msg <==> NewlyMasked(copy[i].msg, m2[i]) {
        CollapsingIsNew(Msgs(ws), names, i);
      }
      var masked;
      collapsedIds, masked := WriteMasked(copy, m2);
      if collapsedIds != [] {
        items := copy;
        assert forall k :: 0 <= k < |copy| ==> ViewAll(copy)[k] == Rewritten(ws, m2)[k];
      }
    }

    /** Takes the injected entries out and puts the new instructions behind the leading system messages. */
    method SetActiveSkillInstructions(skills: seq<Message>)
      requires Valid() && OnlyTurnsCall(Msgs(ViewAll(items))) && AreInstructions(Msgs(ViewAll(items)), skills)
      modifies this`items
      ensures ViewAll(items) == WithSkills(old(ViewAll(items)), skills)
      ensures Valid()
    {
      ghost var ws := ViewAll(items);
      var base := TakeOutInjected();
      var at := CountSystemFront(Msgs(ViewAll(base)));
      var active := Inject(skills);
      SkillsKeepIdentities(ws, skills);
      hide DistinctTags, Unsynthetic, ViewAll, Separate, Injected;
      ViewOfInsert(base, at, active);
      SeparateInsert(base, at, active);
      items := base[..at] + active + base[at..];
    }

    method TakeOutInjected() returns (base: seq<WorkingMessage>)
      requires Separate(items)
      ensures ViewAll(base) == Unsynthetic(ViewAll(items)) && Separate(base)
      ensures forall w :: w in base ==> w in items
    {
      ghost var ws := ViewAll(items);
      base := [];
      for i := 0 to |items|
        invariant ViewAll(base) == Unsynthetic(ws[..i]) && Separate(base)
        invariant forall w :: w in base ==> w in items[..i]
      {
        assert ws[..i + 1][..i] == ws[..i];
        assert items[i] !in base by {
          assert items[i] !in items[..i];
        }
        if !items[i].synthetic {
          SeparateSnoc(base, items[i]);
          ghost var before := ViewAll(base);
          base := base + [items[i]];
          assert ViewAll(base) == before + [ws[i]];
        }
      }
      assert ws[..|items|] == ws;
    }

    method Inject(skills: seq<Message>) returns (active: seq<WorkingMessage>)
      ensures ViewAll(active) == Injected(skills) && Separate(active)
      ensures forall i :: 0 <= i < |active| ==> fresh(active[i])
    {
      active := [];
      for i := 0 to |skills|
        invariant |active| == i && Separate(active)
        invariant forall k :: 0 <= k < i ==> fresh(active[k]) && active[k].View() == Injected(skills)[k]
      {
        var w := new WorkingMessage(skills[i], None, true);
        active := active + [w];
      }
    }

    /** The id the store gave to the newest message. */
    method SetLastDbId(dbId: int)
      requires Separate(items)
      modifies items
      ensures |items| > 0 ==> items[|items| - 1].View() == old(items[|items| - 1].View()).(dbId := Some(dbId))
      ensures forall k :: 0 <= k < |items| - 1 ==> items[k].View() == old(items[k].View())
    {
      if items != [] {
        items[|items| - 1].dbId := Some(dbId);
      }
    }
  }
}
