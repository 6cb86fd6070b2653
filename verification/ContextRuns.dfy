/** The working list over a whole run: messages are added, the list is compacted, consumed results collapse
    and skill instructions change, in any order and any number of times. */
module ContextRuns {
  import opened Wrappers
  import opened Messages
  import opened Lists
  import opened Compaction
  import opened Cascade
  import opened CascadeProofs
  import opened GoalUpdates
  import opened Identities
  import opened ContextManager
  import opened WorkingList

  datatype Op =
    | AddMessage(msg: Message, dbId: Option<int>)
    | CompactNow(env: Env, l3: Option<string>, round: Option<string>)
    | CompactForHistory(keepRecent: int, force: set<string>)
    | CollapseConsumed(names: set<string>)
    | SetSkills(skills: seq<Message>)

  ghost function Step(ws: seq<Work>, op: Op): seq<Work> {
    match op
    case AddMessage(msg, dbId) => Added(ws, msg, dbId)
    case CompactNow(env, l3, round) =>
      var r := RunCascade(ws, env, l3, round);
      if r.Compacted? then r.items else ws
    case CompactForHistory(keepRecent, force) => MaskAll(ws, keepRecent, force)
    case CollapseConsumed(names) => CollapsedList(ws, names)
    case SetSkills(skills) => WithSkills(ws, skills)
  }

  ghost function Run(ws: seq<Work>, ops: seq<Op>): seq<Work> {
    if ops == [] then ws else Step(Run(ws, ops[..|ops| - 1]), ops[|ops| - 1])
  }

  /** What the executor keeps to: new messages are distinct, new calls have new ids, and results come right
      behind the turn that asked for them. */
  predicate Allowed(ws: seq<Work>, op: Op) {
    var ms := Msgs(ws);
    match op
    case AddMessage(msg, _) =>
      && FreshTag(ms, msg.tag) && CallsAreNew(ms, msg)
      && (msg.toolCalls != [] ==> msg.role == Assistant)
      && (msg.role == Tool ==> AnswersLastTurn(ms, msg))
    case CompactNow(env, _, _) => FreshTag(ms, env.summaryTag)
    case SetSkills(skills) => AreInstructions(ms, skills)
    case _ => true
  }

  ghost predicate Sound(ws: seq<Work>) {
    RoundForm(Msgs(ws)) && DistinctTags(Msgs(ws)) && OnlyTurnsCall(Msgs(ws)) && InjectsSystemOnly(ws)
  }

  ghost predicate KeepsFirstRequest(a: seq<Work>, b: seq<Work>) {
    FirstRequest(Msgs(a)).Some? ==> FirstRequest(Msgs(b)) == FirstRequest(Msgs(a))
  }

  // ----- Operation by operation -----

  lemma AddedIsSound(ws: seq<Work>, msg: Message, dbId: Option<int>)
    requires Sound(ws) && Allowed(ws, AddMessage(msg, dbId))
    ensures Sound(Added(ws, msg, dbId)) && KeepsFirstRequest(ws, Added(ws, msg, dbId))
  {
    hide RoundForm, Pruned, CallsAreNew, AnswersLastTurn, Rewritten, DistinctTags, InjectsSystemOnly;
    var all := Msgs(ws) + [msg];
    AddKeepsRoundFormIff(Msgs(ws), msg);
    SnocKeepsIdentities(Msgs(ws), msg);
    PruningKeepsRounds(all);
    ShapesKeepIdentities(all, Pruned(all), msg.tag);
    RequestOfSnoc(Msgs(ws), msg);
    AddedInjects(ws, msg, dbId);
  }

  lemma AddedInjects(ws: seq<Work>, msg: Message, dbId: Option<int>)
    requires InjectsSystemOnly(ws)
    ensures InjectsSystemOnly(Added(ws, msg, dbId))
  {
    hide Pruned;
    var all := ws + [Work(msg, dbId, false)];
    assert Msgs(all) == Msgs(ws) + [msg];
    RewrittenInjects(all, Pruned(Msgs(all)));
  }

  lemma RewrittenInjects(ws: seq<Work>, ms: seq<Message>)
    requires InjectsSystemOnly(ws) && SameShapes(Msgs(ws), ms)
    ensures InjectsSystemOnly(Rewritten(ws, ms))
  {
    forall i | 0 <= i < |ws| && ws[i].synthetic ensures ms[i].role == System {
      assert SameShape(Msgs(ws)[i], ms[i]);
    }
  }

  /** Rewriting results and turns in place without changing their shape keeps a sound list sound. */
  lemma RewrittenIsSound(ws: seq<Work>, out: seq<Work>)
    requires Sound(ws) && SparesOthers(Msgs(ws), Msgs(out)) && InjectsSystemOnly(out)
    ensures Sound(out) && KeepsFirstRequest(ws, out)
  {
    hide RoundForm, InjectsSystemOnly, SparesOthers;
    MaskingKeepsRounds(Msgs(ws), Msgs(out));
    SparedShapes(Msgs(ws), Msgs(out));
    ShapesKeepIdentities(Msgs(ws), Msgs(out), 0);
  }

  lemma SparedShapes(a: seq<Message>, b: seq<Message>)
    requires SparesOthers(a, b)
    ensures SameShapes(a, b)
  {
  }

  lemma MaskAllInjects(ws: seq<Work>, keepRecent: int, force: set<string>)
    requires InjectsSystemOnly(ws)
    ensures InjectsSystemOnly(MaskAll(ws, keepRecent, force))
  {
    hide MaskMessage;
  }

  lemma CollapsedIsSound(ws: seq<Work>, names: set<string>)
    requires Sound(ws)
    ensures Sound(CollapsedList(ws, names)) && KeepsFirstRequest(ws, CollapsedList(ws, names))
  {
    hide RoundForm, DistinctTags, CollapsedMsgs, CollapsedIds, Rewritten;
    var ms := CollapsedMsgs(Msgs(ws), names);
    CollapseSpares(Msgs(ws), names);
    SparedShapes(Msgs(ws), ms);
    RewrittenInjects(ws, ms);
    RewrittenIsSound(ws, Rewritten(ws, ms));
  }

  lemma SkillsAreSound(ws: seq<Work>, skills: seq<Message>)
    requires Sound(ws) && AreInstructions(Msgs(ws), skills)
    ensures Sound(WithSkills(ws, skills)) && KeepsFirstRequest(ws, WithSkills(ws, skills))
  {
    hide RoundForm, DistinctTags, OnlyTurnsCall, InjectsSystemOnly, WithSkills, AreInstructions;
    SkillsKeepRoundForm(ws, skills);
    SkillsKeepFirstRequest(ws, skills);
    SkillsKeepIdentities(ws, skills);
    SkillsInjectSystemOnly(ws, skills);
  }

  lemma PickInjects(ws: seq<Work>, keep: set<nat>)
    requires InjectsSystemOnly(ws)
    ensures InjectsSystemOnly(Pick(ws, keep))
  {
    var out := Pick(ws, keep);
    forall i | 0 <= i < |out| && out[i].synthetic ensures out[i].msg.role == System {
      PickedWork(ws, keep, out[i]);
    }
  }

  lemma {:induction false} PickedWork(ws: seq<Work>, keep: set<nat>, w: Work)
    ensures w in Pick(ws, keep) ==> w in ws
  {
    if ws != [] {
      PickedWork(ws[..|ws| - 1], keep, w);
    }
  }

  lemma SpliceInjects(ws: seq<Work>, c: Candidate, summary: Message)
    requires InjectsSystemOnly(ws) && c.start <= c.end <= |ws|
    ensures InjectsSystemOnly(Splice(ws, c, summary))
  {
    var out := Splice(ws, c, summary);
    forall i | 0 <= i < |out| && out[i].synthetic ensures out[i].msg.role == System {
      assert out[i] == if i < c.start then ws[i] else ws[c.end + (i - c.start - 1)];
    }
  }

  lemma MaskRoundInjects(ws: seq<Work>, start: nat, summary: Message)
    requires InjectsSystemOnly(ws) && start <= |ws|
    ensures InjectsSystemOnly(MaskRound(ws, start, summary))
  {
    hide MaskRoundMessage, MaskRound;
    var out := MaskRound(ws, start, summary);
    forall i | 0 <= i < |out| && out[i].synthetic ensures out[i].msg.role == System {
      assert start <= i < |ws| ==> out[i] == MaskRoundWork(ws[i]);
    }
  }

  lemma CascadeInjects(ws: seq<Work>, env: Env, l3: Option<string>, round: Option<string>)
    requires InjectsSystemOnly(ws) && RunCascade(ws, env, l3, round).Compacted?
    ensures InjectsSystemOnly(RunCascade(ws, env, l3, round).items)
  {
    hide InjectsSystemOnly, MaskMessage, L3Range, MaskRound, Splice, Pick, WindowOf, LatestRound, DbIds;
    if env.est(Msgs(ws)) < env.budget {
      MaskAllInjects(ws, MAX_SAFE_INTEGER, env.force);
      return;
    }
    var a := MaskAll(ws, env.keepRecent, env.force);
    MaskAllInjects(ws, env.keepRecent, env.force);
    var range := RangeOf(ws, env);
    if range.Some? {
      SpliceInjects(a, range.value, SummaryMessage(env, l3.value));
    }
    var b := AfterSummary(ws, env, l3);
    PickInjects(b, WindowOf(b, env));
    var c := AfterWindow(ws, env, l3);
    var recent := RoundToSummarize(c, env, range.Some?);
    if recent.Some? {
      MaskRoundInjects(c, recent.value, RoundSummary(env, round.value));
    }
  }

  lemma CompactedIsSound(ws: seq<Work>, env: Env, l3: Option<string>, round: Option<string>)
    requires Sound(ws) && FreshTag(Msgs(ws), env.summaryTag)
    requires RunCascade(ws, env, l3, round).Compacted?
    ensures Sound(RunCascade(ws, env, l3, round).items)
    ensures KeepsFirstRequest(ws, RunCascade(ws, env, l3, round).items)
  {
    hide RunCascade, RoundForm, DistinctTags, OnlyTurnsCall, InjectsSystemOnly;
    CascadeKeepsRounds(ws, env, l3, round);
    CascadeKeepsIdentities(ws, env, l3, round);
    CascadeInjects(ws, env, l3, round);
  }

  lemma HistoryIsSound(ws: seq<Work>, keepRecent: int, force: set<string>)
    requires Sound(ws)
    ensures Sound(MaskAll(ws, keepRecent, force)) && KeepsFirstRequest(ws, MaskAll(ws, keepRecent, force))
  {
    hide RoundForm, DistinctTags, OnlyTurnsCall, InjectsSystemOnly, MaskAll;
    MaskAllSpares(ws, keepRecent, force);
    MaskAllInjects(ws, keepRecent, force);
    RewrittenIsSound(ws, MaskAll(ws, keepRecent, force));
  }

  lemma StepIsSound(ws: seq<Work>, op: Op)
    requires Sound(ws) && Allowed(ws, op)
    ensures Sound(Step(ws, op)) && KeepsFirstRequest(ws, Step(ws, op))
  {
    hide Sound, RunCascade, Added, MaskAll, CollapsedList, WithSkills;
    match op
    case AddMessage(msg, dbId) => AddedIsSound(ws, msg, dbId);
    case CompactNow(env, l3, round) =>
      if RunCascade(ws, env, l3, round).Compacted? {
        CompactedIsSound(ws, env, l3, round);
      }
    case CompactForHistory(keepRecent, force) => HistoryIsSound(ws, keepRecent, force);
    case CollapseConsumed(names) => CollapsedIsSound(ws, names);
    case SetSkills(skills) => SkillsAreSound(ws, skills);
  }

  /** Over every sequence of these operations, with whatever budgets and answers, the list stays in round
      form with distinct messages, and the first user message is never lost. */
  lemma {:induction false} RunStaysSound(ws: seq<Work>, ops: seq<Op>)
    requires Sound(ws)
    requires forall n: nat :: n < |ops| ==> Allowed(Run(ws, ops[..n]), ops[n])
    ensures Sound(Run(ws, ops)) && KeepsFirstRequest(ws, Run(ws, ops))
  {
    hide Sound, Step, FirstRequest, Allowed;
    if ops != [] {
      var n := |ops| - 1;
      forall k: nat | k < n ensures Allowed(Run(ws, ops[..n][..k]), ops[..n][k]) {
        assert ops[..n][..k] == ops[..k];
      }
      RunStaysSound(ws, ops[..n]);
      StepIsSound(Run(ws, ops[..n]), ops[n]);
    }
  }
}
