/** The other changes to the working list: consumed results are collapsed, skill instructions are put in
    front; and when the list with one more message is in round form. */
module WorkingList {
  import opened Wrappers
  import opened Messages
  import opened Lists
  import opened Compaction
  import opened Cascade
  import opened CascadeProofs
  import opened Identities

  // ----- One more message -----

  predicate CallsAreNew(ms: seq<Message>, m: Message) {
    m.role != Assistant || forall c :: c in m.toolCalls ==> !IssuedBy(ms, c.id)
  }

  /** The result answers a call of the last message that is no result. */
  predicate AnswersLastTurn(ms: seq<Message>, m: Message) {
    && m.toolCallId.Some? && m.toolCallId.value != ""
    && FirstResult(ms, |ms|) > 0
    && Issues(ms[FirstResult(ms, |ms|) - 1], m.toolCallId.value)
  }

  /** Exactly when one more message keeps the round form. */
  lemma AddKeepsRoundFormIff(ms: seq<Message>, m: Message)
    ensures RoundForm(ms + [m]) <==>
      RoundForm(ms) && CallsAreNew(ms, m) && (m.role == Tool ==> AnswersLastTurn(ms, m))
  {
    var all := ms + [m];
    assert forall k :: 0 <= k < |ms| ==> all[k] == ms[k];
    if RoundForm(all) {
      PrefixRoundForm(ms, m);
      if m.role == Tool {
        var i: nat :| Owns(all, i, |ms|);
        OwnerIsLast(ms, i);
      }
      forall c | m.role == Assistant && c in m.toolCalls ensures !IssuedBy(ms, c.id) {
        assert Issues(all[|ms|], c.id);
        assert forall i :: 0 <= i < |ms| && Issues(ms[i], c.id) ==> Issues(all[i], c.id);
      }
    }
    if RoundForm(ms) && CallsAreNew(ms, m) && (m.role == Tool ==> AnswersLastTurn(ms, m)) {
      SnocRoundForm(ms, m);
    }
  }

  lemma OwnerIsLast(ms: seq<Message>, i: nat)
    requires i < |ms| && ms[i].role != Tool && forall k :: i < k < |ms| ==> ms[k].role == Tool
    ensures FirstResult(ms, |ms|) == i + 1
  {
    var n := FirstResult(ms, |ms|);
  }

  lemma PrefixRoundForm(ms: seq<Message>, m: Message)
    requires RoundForm(ms + [m])
    ensures RoundForm(ms)
  {
    var all := ms + [m];
    assert forall k :: 0 <= k < |ms| ==> all[k] == ms[k];
    forall j: nat | j < |ms| && ms[j].role == Tool ensures exists i: nat :: Owns(ms, i, j) {
      var i: nat :| Owns(all, i, j);
      assert Owns(ms, i, j);
    }
  }

  lemma SnocRoundForm(ms: seq<Message>, m: Message)
    requires RoundForm(ms) && CallsAreNew(ms, m) && (m.role == Tool ==> AnswersLastTurn(ms, m))
    ensures RoundForm(ms + [m])
  {
    var all := ms + [m];
    assert forall k :: 0 <= k < |ms| ==> all[k] == ms[k];
    forall j: nat | j < |all| && all[j].role == Tool ensures exists i: nat :: Owns(all, i, j) {
      if j < |ms| {
        var i: nat :| Owns(ms, i, j);
        assert Owns(all, i, j);
      } else {
        assert Owns(all, FirstResult(ms, |ms|) - 1, j);
      }
    }
    forall i, j, id | 0 <= i < |all| && 0 <= j < |all| && Issues(all[i], id) && Issues(all[j], id) ensures i == j {
      assert i < |ms| ==> IssuedBy(ms, id);
      assert j < |ms| ==> IssuedBy(ms, id);
    }
  }

  // ----- Consumed results -----

  /** The name of the last of these calls with the id. */
  function LastName(calls: seq<ToolCall>, id: string): Option<string> {
    if calls == [] then None
    else if calls[|calls| - 1].id == id then Some(calls[|calls| - 1].name)
    else LastName(calls[..|calls| - 1], id)
  }

  /** The tool of a call id: the last one in the list, or nothing. */
  function NameOf(ms: seq<Message>, id: string): string {
    if ms == [] then ""
    else
      var n := LastName(ms[|ms| - 1].toolCalls, id);
      if n.Some? then n.value else NameOf(ms[..|ms| - 1], id)
  }

  predicate Consumed(ms: seq<Message>, m: Message, names: set<string>) {
    && m.role == Tool && m.collapsed == Intact && m.toolCallId.Some? && m.toolCallId.value != ""
    && NameOf(ms, m.toolCallId.value) in names
  }

  function CollapsedMsgs(ms: seq<Message>, names: set<string>): (r: seq<Message>)
    ensures |r| == |ms|
    ensures forall i :: 0 <= i < |ms| ==>
      r[i] == if Consumed(ms, ms[i], names)
              then ms[i].(content := Some(MaskPlaceholder(ms[i].Text())), collapsed := Masked) else ms[i]
  {
    seq(|ms|, i requires 0 <= i < |ms| =>
      if Consumed(ms, ms[i], names)
      then ms[i].(content := Some(MaskPlaceholder(ms[i].Text())), collapsed := Masked) else ms[i])
  }

  lemma CollapseSpares(ms: seq<Message>, names: set<string>)
    ensures SparesOthers(ms, CollapsedMsgs(ms, names))
  {
  }

  /** The same wrappers around other messages. */
  function Rewritten(ws: seq<Work>, ms: seq<Message>): (r: seq<Work>)
    requires |ms| == |ws|
    ensures |r| == |ws| && forall i :: 0 <= i < |ws| ==> r[i] == ws[i].(msg := ms[i])
    ensures Msgs(r) == ms
  {
    var r := seq(|ws|, i requires 0 <= i < |ws| => ws[i].(msg := ms[i]));
    assert Msgs(r) == ms;
    r
  }

  /** The stored ids of the results that collapse. */
  function CollapsedIds(ws: seq<Work>, names: set<string>): seq<int> {
    DbIds(Pick(ws, ChangedAt(Msgs(ws), CollapsedMsgs(Msgs(ws), names))))
  }

  /** Results of these tools collapse to placeholders, unless none of them is stored. */
  function CollapsedList(ws: seq<Work>, names: set<string>): (r: seq<Work>)
    ensures |r| == |ws|
  {
    if CollapsedIds(ws, names) == [] then ws else Rewritten(ws, CollapsedMsgs(Msgs(ws), names))
  }

  /** Call `k` of message `i` is the last one in the list with the id. */
  predicate LastCallWith(ms: seq<Message>, id: string, i: nat, k: nat) {
    && i < |ms| && k < |ms[i].toolCalls| && ms[i].toolCalls[k].id == id
    && (forall n :: k < n < |ms[i].toolCalls| ==> ms[i].toolCalls[n].id != id)
    && forall j, n :: i < j < |ms| && 0 <= n < |ms[j].toolCalls| ==> ms[j].toolCalls[n].id != id
  }

  /** That call is one of these tools. */
  predicate LastCallTo(ms: seq<Message>, id: string, i: nat, k: nat, names: set<string>) {
    LastCallWith(ms, id, i, k) && ms[i].toolCalls[k].name in names
  }

  predicate LastIn(calls: seq<ToolCall>, id: string, k: nat) {
    k < |calls| && calls[k].id == id && forall n :: k < n < |calls| ==> calls[n].id != id
  }

  lemma {:induction false} LastNameIsLast(calls: seq<ToolCall>, id: string)
    ensures LastName(calls, id).None? ==> forall n :: 0 <= n < |calls| ==> calls[n].id != id
    ensures LastName(calls, id).Some? ==> exists k: nat :: LastIn(calls, id, k) && LastName(calls, id).value == calls[k].name
  {
    if calls != [] {
      var n: nat := |calls| - 1;
      if calls[n].id == id {
        assert LastIn(calls, id, n);
      } else {
        LastNameIsLast(calls[..n], id);
        if k: nat :| LastIn(calls[..n], id, k) && LastName(calls, id) == Some(calls[k].name) {
          assert LastIn(calls, id, k);
        }
      }
    }
  }

  /** The tool of a call id is that of the last call with it. */
  lemma {:induction false} NameIsOfLastCall(ms: seq<Message>, id: string, i: nat, k: nat)
    requires LastCallWith(ms, id, i, k)
    ensures NameOf(ms, id) == ms[i].toolCalls[k].name
  {
    var n := |ms| - 1;
    LastNameIsLast(ms[n].toolCalls, id);
    if i < n {
      assert LastCallWith(ms[..n], id, i, k);
      NameIsOfLastCall(ms[..n], id, i, k);
    }
  }

  /** Without such a call it is empty. */
  lemma {:induction false} SomeLastCall(ms: seq<Message>, id: string)
    ensures NameOf(ms, id) == "" || exists i: nat, k: nat :: LastCallWith(ms, id, i, k)
  {
    if ms != [] {
      var n: nat := |ms| - 1;
      LastNameIsLast(ms[n].toolCalls, id);
      if LastName(ms[n].toolCalls, id).Some? {
        var k: nat :| LastIn(ms[n].toolCalls, id, k);
        assert LastCallWith(ms, id, n, k);
      } else {
        SomeLastCall(ms[..n], id);
        if i: nat, k: nat :| LastCallWith(ms[..n], id, i, k) {
          LastCallStays(ms, id, i, k);
        }
      }
    }
  }

  lemma LastCallStays(ms: seq<Message>, id: string, i: nat, k: nat)
    requires ms != [] && LastCallWith(ms[..|ms| - 1], id, i, k)
    requires LastName(ms[|ms| - 1].toolCalls, id).None?
    ensures LastCallWith(ms, id, i, k)
  {
    LastNameIsLast(ms[|ms| - 1].toolCalls, id);
    assert forall j :: 0 <= j < |ms| - 1 ==> ms[..|ms| - 1][j] == ms[j];
  }

  /** The result at `i` is an intact one, and the last call with its id is one of the tools; with the empty
      name among them also if there is no such call. */
  ghost predicate ConsumedAt(ms: seq<Message>, i: nat, names: set<string>)
    requires i < |ms|
  {
    && ms[i].role == Tool && ms[i].collapsed == Intact
    && ms[i].toolCallId.Some? && ms[i].toolCallId.value != ""
    && (|| (exists j: nat, k: nat :: LastCallTo(ms, ms[i].toolCallId.value, j, k, names))
        || ("" in names && forall j: nat, k: nat :: !LastCallWith(ms, ms[i].toolCallId.value, j, k)))
  }

  lemma ConsumedThere(ms: seq<Message>, i: nat, names: set<string>)
    requires i < |ms|
    ensures Consumed(ms, ms[i], names) <==> ConsumedAt(ms, i, names)
  {
    hide NameOf;
    if ms[i].toolCallId.Some? {
      var id := ms[i].toolCallId.value;
      SomeLastCall(ms, id);
      if NameOf(ms, id) in names && exists j: nat, k: nat :: LastCallWith(ms, id, j, k) {
        var j: nat, k: nat :| LastCallWith(ms, id, j, k);
        NameIsOfLastCall(ms, id, j, k);
        assert LastCallTo(ms, id, j, k, names);
      }
      if j: nat, k: nat :| LastCallTo(ms, id, j, k, names) {
        NameIsOfLastCall(ms, id, j, k);
      }
    }
  }

  /** Some result that collapses is stored. */
  ghost predicate SomeConsumedStored(ws: seq<Work>, names: set<string>) {
    exists i: nat :: i < |ws| && ConsumedAt(Msgs(ws), i, names) && ws[i].dbId.Some?
  }

  /** Exactly the intact results of the tools collapse, to placeholders of their text - all of them if one is
      stored, and none otherwise. */
  lemma CollapsesExactly(ws: seq<Work>, names: set<string>, i: nat)
    requires i < |ws|
    ensures CollapsedList(ws, names)[i] ==
      if SomeConsumedStored(ws, names) && ConsumedAt(Msgs(ws), i, names)
      then ws[i].(msg := ws[i].msg.(content := Some(MaskPlaceholder(ws[i].msg.Text())), collapsed := Masked))
      else ws[i]
  {
    hide ConsumedAt, Consumed, MaskPlaceholder, Pick, DbIds;
    var ms := Msgs(ws);
    var changed := ChangedAt(ms, CollapsedMsgs(ms, names));
    forall n: nat | n < |ws| ensures n in changed <==> ConsumedAt(ms, n, names) {
      ConsumedThere(ms, n, names);
      ConsumedChanges(ms, n, names);
    }
    PickedStored(ws, changed);
  }

  lemma ConsumedChanges(ms: seq<Message>, i: nat, names: set<string>)
    requires i < |ms|
    ensures CollapsedMsgs(ms, names)[i] != ms[i] <==> Consumed(ms, ms[i], names)
  {
  }

  ghost predicate StoredIn(ws: seq<Work>, keep: set<nat>) {
    exists i: nat :: i < |ws| && i in keep && ws[i].dbId.Some?
  }

  lemma StoredInSnoc(ws: seq<Work>, keep: set<nat>)
    requires ws != []
    ensures var n: nat := |ws| - 1; StoredIn(ws, keep) <==> StoredIn(ws[..n], keep) || (n in keep && ws[n].dbId.Some?)
  {
    var n: nat := |ws| - 1;
    assert forall i: nat :: i < n ==> ws[..n][i] == ws[i];
    if StoredIn(ws[..n], keep) {
      var i: nat :| i < n && i in keep && ws[..n][i].dbId.Some?;
      assert ws[i].dbId.Some?;
    }
  }

  lemma DbIdsSnoc(ws: seq<Work>, w: Work)
    ensures DbIds(ws + [w]) == DbIds(ws) + (if w.dbId.Some? then [w.dbId.value] else [])
  {
    assert (ws + [w])[..|ws|] == ws;
  }

  lemma {:induction false} PickedStored(ws: seq<Work>, keep: set<nat>)
    ensures DbIds(Pick(ws, keep)) != [] <==> StoredIn(ws, keep)
  {
    hide DbIds, StoredIn;
    if ws == [] {
      NothingStored(keep);
    } else {
      var n: nat := |ws| - 1;
      var front := Pick(ws[..n], keep);
      PickedStored(ws[..n], keep);
      StoredInSnoc(ws, keep);
      if n in keep {
        DbIdsSnoc(front, ws[n]);
      } else {
        assert front + [] == front;
      }
    }
  }

  lemma NothingStored(keep: set<nat>)
    ensures DbIds([]) == [] && !StoredIn([], keep)
  {
  }

  // ----- Skill instructions -----

  /** The list without the entries that were injected. */
  function Unsynthetic(ws: seq<Work>): seq<Work> {
    if ws == [] then []
    else Unsynthetic(ws[..|ws| - 1]) + (if ws[|ws| - 1].synthetic then [] else [ws[|ws| - 1]])
  }

  /** How many system messages the list starts with. */
  function SystemFront(ms: seq<Message>): (n: nat)
    ensures n <= |ms| && forall k :: 0 <= k < n ==> ms[k].role == System
    ensures n < |ms| ==> ms[n].role != System
  {
    if ms == [] || ms[0].role != System then 0 else 1 + SystemFront(ms[1..])
  }

  function Injected(skills: seq<Message>): (r: seq<Work>)
    ensures |r| == |skills| && Msgs(r) == skills
    ensures forall i :: 0 <= i < |skills| ==> r[i] == Work(skills[i], None, true)
  {
    var r := seq(|skills|, i requires 0 <= i < |skills| => Work(skills[i], None, true));
    assert Msgs(r) == skills;
    r
  }

  /** The old instructions go, and the new ones stand behind the leading system messages. */
  function WithSkills(ws: seq<Work>, skills: seq<Message>): seq<Work> {
    var base := Unsynthetic(ws);
    var at := SystemFront(Msgs(base));
    base[..at] + Injected(skills) + base[at..]
  }

  lemma {:induction false} UnsyntheticIsPick(ws: seq<Work>, keep: set<nat>)
    requires forall i: nat :: i < |ws| ==> (i in keep <==> !ws[i].synthetic)
    ensures Unsynthetic(ws) == Pick(ws, keep)
  {
    if ws != [] {
      UnsyntheticIsPick(ws[..|ws| - 1], keep);
    }
  }

  lemma PutBetween(base: seq<Work>, at: nat, more: seq<Work>)
    requires at <= |base|
    ensures var out, n := base[..at] + more + base[at..], |more|;
      && |out| == |base| + n && out[..at] + out[at + n..] == base
      && (forall i :: 0 <= i < n ==> out[at + i] == more[i])
      && (forall i :: 0 <= i < at ==> out[i] == base[i])
      && (at < |base| ==> out[at + n] == base[at])
  {
    var out, n := base[..at] + more + base[at..], |more|;
    assert out[..at] == base[..at] && out[at + n..] == base[at..];
  }

  /** The entries that were not injected stay in order, and the new ones stand together behind all system
      messages that the others start with. */
  lemma SkillsStand(ws: seq<Work>, skills: seq<Message>) returns (at: nat)
    ensures var out, n := WithSkills(ws, skills), |skills|;
      && at + n <= |out|
      && out[..at] + out[at + n..] == Pick(ws, set i: nat | i < |ws| && !ws[i].synthetic)
      && (forall i :: 0 <= i < n ==> out[at + i] == Work(skills[i], None, true))
      && (forall i :: 0 <= i < at ==> out[i].msg.role == System)
      && (at + n < |out| ==> out[at + n].msg.role != System)
  {
    hide Unsynthetic, Pick;
    var base := Unsynthetic(ws);
    at := SystemFront(Msgs(base));
    UnsyntheticIsPick(ws, set i: nat | i < |ws| && !ws[i].synthetic);
    PutBetween(base, at, Injected(skills));
    forall i | 0 <= i < at ensures base[i].msg.role == System {
      assert Msgs(base)[i].role == System;
    }
    assert at < |base| ==> Msgs(base)[at].role != System;
  }

  /** Injected entries are system messages. */
  predicate InjectsSystemOnly(ws: seq<Work>) {
    forall i :: 0 <= i < |ws| && ws[i].synthetic ==> ws[i].msg.role == System
  }

  /** The message in front of the trailing results. */
  function TurnInFront(ms: seq<Message>): Option<Message> {
    if FirstResult(ms, |ms|) > 0 then Some(ms[FirstResult(ms, |ms|) - 1]) else None
  }

  lemma TurnOfSnoc(ms: seq<Message>, m: Message)
    ensures TurnInFront(ms + [m]) == if m.role == Tool then TurnInFront(ms) else Some(m)
  {
    var all, n := ms + [m], FirstResult(ms, |ms|);
    assert forall k :: 0 <= k < |ms| ==> all[k] == ms[k];
    if m.role == Tool {
      FirstResultIs(all, n);
    } else {
      FirstResultIs(all, |all|);
    }
  }

  lemma FirstResultIs(ms: seq<Message>, n: nat)
    requires n <= |ms| && (forall k :: n <= k < |ms| ==> ms[k].role == Tool) && (n > 0 ==> ms[n - 1].role != Tool)
    ensures FirstResult(ms, |ms|) == n
  {
    var r := FirstResult(ms, |ms|);
    assert !(r < n) && !(n < r);
  }

  /** Without injected entries the list keeps its round form, and the turn in front of trailing results. */
  lemma {:induction false} UnsyntheticKeepsRounds(ws: seq<Work>)
    requires RoundForm(Msgs(ws)) && InjectsSystemOnly(ws)
    ensures RoundForm(Msgs(Unsynthetic(ws)))
    ensures forall id :: IssuedBy(Msgs(Unsynthetic(ws)), id) ==> IssuedBy(Msgs(ws), id)
    ensures var t := TurnInFront(Msgs(ws));
      t.Some? && t.value.role == Assistant ==> TurnInFront(Msgs(Unsynthetic(ws))) == t
    ensures FirstRequest(Msgs(Unsynthetic(ws))) == FirstRequest(Msgs(ws))
  {
    hide RoundForm, TurnInFront, IssuedBy;
    if ws == [] {
    } else {
      var init, w := ws[..|ws| - 1], ws[|ws| - 1];
      var before, base := Msgs(init), Msgs(Unsynthetic(init));
      assert Msgs(ws) == before + [w.msg];
      AddKeepsRoundFormIff(before, w.msg);
      UnsyntheticKeepsRounds(init);
      TurnOfSnoc(before, w.msg);
      IssuedBySnoc(before, w.msg);
      RequestOfSnoc(before, w.msg);
      if w.synthetic {
        assert Unsynthetic(init) + [] == Unsynthetic(init);
      } else {
        assert Msgs(Unsynthetic(ws)) == base + [w.msg];
        LastTurnIssues(before, w.msg);
        LastTurnIssues(base, w.msg);
        AddKeepsRoundFormIff(base, w.msg);
        TurnOfSnoc(base, w.msg);
        IssuedBySnoc(base, w.msg);
        RequestOfSnoc(base, w.msg);
      }
    }
  }

  lemma IssuedBySnoc(ms: seq<Message>, m: Message)
    ensures forall id :: IssuedBy(ms + [m], id) <==> IssuedBy(ms, id) || Issues(m, id)
  {
    var all := ms + [m];
    assert all[|ms|] == m && forall k :: 0 <= k < |ms| ==> all[k] == ms[k];
  }

  lemma RequestOfSnoc(ms: seq<Message>, m: Message)
    ensures FirstRequest(ms + [m]) ==
      if FirstRequest(ms).Some? then FirstRequest(ms) else if m.role == User then Some(m) else None
  {
    assert (ms + [m])[..|ms|] == ms;
  }

  lemma LastTurnIssues(ms: seq<Message>, m: Message)
    ensures AnswersLastTurn(ms, m) <==>
      && m.toolCallId.Some? && m.toolCallId.value != "" && TurnInFront(ms).Some?
      && Issues(TurnInFront(ms).value, m.toolCallId.value)
  {
  }

  /** New instructions are new system messages. */
  predicate AreInstructions(ms: seq<Message>, skills: seq<Message>) {
    && DistinctTags(skills)
    && forall m :: m in skills ==> m.role == System && m.toolCalls == [] && FreshTag(ms, m.tag)
  }

  lemma {:induction false} UnsyntheticKeepsIdentities(ws: seq<Work>)
    requires DistinctTags(Msgs(ws))
    ensures DistinctTags(Msgs(Unsynthetic(ws)))
    ensures forall m :: m in Msgs(Unsynthetic(ws)) ==> m in Msgs(ws)
  {
    if ws != [] {
      var init, w := ws[..|ws| - 1], ws[|ws| - 1];
      var base := Msgs(Unsynthetic(init));
      assert Msgs(ws) == Msgs(init) + [w.msg];
      assert DistinctTags(Msgs(init)) && FreshTag(Msgs(init), w.msg.tag);
      UnsyntheticKeepsIdentities(init);
      if w.synthetic {
        assert Unsynthetic(init) + [] == Unsynthetic(init);
      } else {
        assert Msgs(Unsynthetic(ws)) == base + [w.msg];
        assert FreshTag(base, w.msg.tag) by {
          assert forall i :: 0 <= i < |base| ==> base[i] in base;
        }
      }
    }
  }

  lemma {:induction false} UnsyntheticHasNone(ws: seq<Work>)
    ensures forall w :: w in Unsynthetic(ws) ==> !w.synthetic && w in ws
  {
    if ws != [] {
      UnsyntheticHasNone(ws[..|ws| - 1]);
    }
  }

  /** New messages anywhere among others leave all of them distinct. */
  lemma InsertedIsDistinct(a: seq<Message>, s: seq<Message>, b: seq<Message>)
    requires DistinctTags(a + b) && DistinctTags(s) && forall m :: m in s ==> FreshTag(a + b, m.tag)
    ensures DistinctTags(a + s + b)
  {
    var all, rest := a + s + b, a + b;
    assert forall k :: 0 <= k < |a| ==> all[k] == rest[k];
    assert forall k :: |a| <= k < |a| + |s| ==> all[k] == s[k - |a|] && all[k] in s;
    assert forall k :: |a| + |s| <= k < |all| ==> all[k] == rest[k - |s|];
  }

  lemma WithSkillsMsgs(ws: seq<Work>, skills: seq<Message>)
    ensures var base := Msgs(Unsynthetic(ws));
      Msgs(WithSkills(ws, skills)) == base[..SystemFront(base)] + skills + base[SystemFront(base)..]
  {
  }

  /** A list in round form does not go on with a result behind its leading system messages. */
  lemma NoResultBehindFront(ms: seq<Message>)
    requires RoundForm(ms)
    ensures SystemFront(ms) < |ms| ==> ms[SystemFront(ms)].role != Tool
  {
    if SystemFront(ms) < |ms| {
      ResultFollows(ms, SystemFront(ms));
    }
  }

  lemma SkillsKeepRoundForm(ws: seq<Work>, skills: seq<Message>)
    requires RoundForm(Msgs(ws)) && InjectsSystemOnly(ws) && AreInstructions(Msgs(ws), skills)
    ensures RoundForm(Msgs(WithSkills(ws, skills)))
  {
    hide RoundForm, DistinctTags, WithSkills;
    var base := Msgs(Unsynthetic(ws));
    var n := SystemFront(base);
    UnsyntheticKeepsRounds(ws);
    NoResultBehindFront(base);
    SuffixRoundForm(base, n);
    QuietFrontRoundForm(base[..n] + skills, base[n..]);
    WithSkillsMsgs(ws, skills);
  }

  lemma SkillsKeepFirstRequest(ws: seq<Work>, skills: seq<Message>)
    requires RoundForm(Msgs(ws)) && InjectsSystemOnly(ws) && AreInstructions(Msgs(ws), skills)
    ensures FirstRequest(Msgs(WithSkills(ws, skills))) == FirstRequest(Msgs(ws))
  {
    hide FirstRequest, RoundForm, DistinctTags, WithSkills;
    var base := Msgs(Unsynthetic(ws));
    var n := SystemFront(base);
    UnsyntheticKeepsRounds(ws);
    WithSkillsMsgs(ws, skills);
    FirstRequestOfTwo(base[..n] + skills, base[n..]);
    FirstRequestOfTwo(base[..n], base[n..]);
    NoRequest(base[..n] + skills);
    NoRequest(base[..n]);
    assert base[..n] + base[n..] == base;
  }

  lemma SkillsKeepIdentities(ws: seq<Work>, skills: seq<Message>)
    requires DistinctTags(Msgs(ws)) && OnlyTurnsCall(Msgs(ws)) && AreInstructions(Msgs(ws), skills)
    ensures DistinctTags(Msgs(WithSkills(ws, skills))) && OnlyTurnsCall(Msgs(WithSkills(ws, skills)))
  {
    hide DistinctTags, FreshTag, OnlyTurnsCall, WithSkills;
    var ms, base := Msgs(ws), Msgs(Unsynthetic(ws));
    var n := SystemFront(base);
    UnsyntheticKeepsIdentities(ws);
    WithSkillsMsgs(ws, skills);
    assert base[..n] + base[n..] == base;
    forall m | m in skills ensures FreshTag(base, m.tag) {
      StaysFresh(ms, base, m.tag);
    }
    InsertedIsDistinct(base[..n], skills, base[n..]);
    MembersOnlyTurns(ms, base);
    InsertedOnlyTurns(base[..n], skills, base[n..]);
  }

  lemma MembersOnlyTurns(a: seq<Message>, b: seq<Message>)
    requires OnlyTurnsCall(a) && forall m :: m in b ==> m in a
    ensures OnlyTurnsCall(b)
  {
    assert forall i :: 0 <= i < |b| ==> b[i] in b;
  }

  lemma InsertedOnlyTurns(a: seq<Message>, s: seq<Message>, b: seq<Message>)
    requires OnlyTurnsCall(a + b) && forall m :: m in s ==> m.toolCalls == []
    ensures OnlyTurnsCall(a + s + b)
  {
    var all, rest := a + s + b, a + b;
    assert forall k :: 0 <= k < |a| ==> all[k] == rest[k];
    assert forall k :: |a| <= k < |a| + |s| ==> all[k] in s;
    assert forall k :: |a| + |s| <= k < |all| ==> all[k] == rest[k - |s|];
  }

  lemma StaysFresh(a: seq<Message>, b: seq<Message>, tag: nat)
    requires FreshTag(a, tag) && forall m :: m in b ==> m in a
    ensures FreshTag(b, tag)
  {
    assert forall i :: 0 <= i < |b| ==> b[i] in b;
  }

  lemma SkillsInjectSystemOnly(ws: seq<Work>, skills: seq<Message>)
    requires AreInstructions(Msgs(ws), skills)
    ensures InjectsSystemOnly(WithSkills(ws, skills))
  {
    var out := WithSkills(ws, skills);
    UnsyntheticHasNone(ws);
    forall i | 0 <= i < |out| && out[i].synthetic ensures out[i].msg.role == System {
      assert out[i] in Unsynthetic(ws) || out[i] in Injected(skills);
    }
  }
}
