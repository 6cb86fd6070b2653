/** What one compaction does to the working list, stage by stage, on values; and what it keeps. */
module Cascade {
  import opened Wrappers
  import opened Messages
  import opened Lists
  import opened Text
  import opened Compaction

  /** A working message as a value: the message, its database id, and the mark of injected entries. */
  datatype Work = Work(msg: Message, dbId: Option<int>, synthetic: bool)

  function MsgOf(w: Work): Message {
    w.msg
  }

  function Msgs(ws: seq<Work>): (r: seq<Message>)
    ensures |r| == |ws|
    ensures forall i :: 0 <= i < |ws| ==> r[i] == ws[i].msg
  {
    Map(MsgOf, ws)
  }

  lemma MsgsOfPick(ws: seq<Work>, keep: set<nat>)
    ensures Msgs(Pick(ws, keep)) == Pick(Msgs(ws), keep)
  {
    PickOfMap(MsgOf, ws, keep);
  }

  /** The database ids in the list, in order. */
  function DbIds(ws: seq<Work>): (r: seq<int>)
    ensures |r| <= |ws|
  {
    if ws == [] then []
    else
      var w := ws[|ws| - 1];
      DbIds(ws[..|ws| - 1]) + (if w.dbId.Some? then [w.dbId.value] else [])
  }

  /** Everything a compaction may consult: any estimator, and any wording of the summary message around
      the provider's answer and the goal. */
  datatype Env = Env(
    budget: int,
    keepRecent: int,
    force: set<string>,
    hasProvider: bool,
    est: seq<Message> -> int,
    wording: string -> string,
    roundWording: string -> string,
    summaryTag: nat)

  const MAX_SAFE_INTEGER: nat := 9007199254740991

  // ----- L1 -----

  function MaskWork(w: Work, aged: bool, force: set<string>): Work {
    w.(msg := MaskMessage(w.msg, aged, force))
  }

  function Aged(ws: seq<Work>, keepRecent: int, i: int): bool {
    i < |ws| - Max(0, keepRecent)
  }

  function MaskAll(ws: seq<Work>, keepRecent: int, force: set<string>): (r: seq<Work>)
    ensures |r| == |ws|
    ensures forall i :: 0 <= i < |ws| ==> r[i] == MaskWork(ws[i], Aged(ws, keepRecent, i), force)
  {
    seq(|ws|, i requires 0 <= i < |ws| => MaskWork(ws[i], Aged(ws, keepRecent, i), force))
  }

  /** The positions where a rewritten list differs. */
  function ChangedAt(before: seq<Message>, after: seq<Message>): (r: set<nat>)
    requires |before| == |after|
    ensures forall i: nat :: i in r <==> i < |before| && after[i] != before[i]
  {
    set i: nat | i < |before| && after[i] != before[i]
  }

  /** The positions where L1 newly masks. */
  function MaskedAt(ws: seq<Work>, keepRecent: int, force: set<string>): set<nat> {
    ChangedAt(Msgs(ws), Msgs(MaskAll(ws, keepRecent, force)))
  }

  // ----- L3 -----

  function SummaryMessage(env: Env, summary: string): Message {
    Message(env.summaryTag, System, Some(env.wording(summary)), [], None, Summarized, false, [])
  }

  /** The range L3 would summarise, if it would ask the provider at all. */
  ghost function L3Range(ws: seq<Work>, env: Env): (r: Option<Candidate>)
    ensures r.Some? ==> r == SummaryRange(Msgs(ws), env.keepRecent)
  {
    var range := SummaryRange(Msgs(ws), env.keepRecent);
    if env.hasProvider && env.est(Msgs(ws)) >= env.budget && range.Some?
       && DbIds(ws[range.value.start..range.value.end]) != []
    then range else None
  }

  function Splice(ws: seq<Work>, c: Candidate, summary: Message): seq<Work>
    requires c.start <= c.end <= |ws|
  {
    ws[..c.start] + [Work(summary, None, false)] + ws[c.end..]
  }

  lemma MsgsOfSplice(ws: seq<Work>, c: Candidate, summary: Message)
    requires c.start <= c.end <= |ws|
    ensures Msgs(Splice(ws, c, summary)) == Msgs(ws)[..c.start] + [summary] + Msgs(ws)[c.end..]
  {
  }

  // ----- L2 -----

  function WindowOf(ws: seq<Work>, env: Env): set<nat> {
    if env.est(Msgs(ws)) >= env.budget then WindowKeeps(Msgs(ws), env.keepRecent) else Positions(|ws|)
  }

  function Positions(n: nat): (r: set<nat>)
    ensures forall i: nat :: i in r <==> i < n
  {
    if n == 0 then {} else Positions(n - 1) + {n - 1}
  }

  // ----- The most recent complete tool round -----

  /** Where the trailing results start. */
  function FirstResult(ms: seq<Message>, n: nat): (r: nat)
    requires n <= |ms|
    ensures r <= n
    ensures forall k :: r <= k < n ==> ms[k].role == Tool
    ensures r > 0 ==> ms[r - 1].role != Tool
  {
    if n > 0 && ms[n - 1].role == Tool then FirstResult(ms, n - 1) else n
  }

  function IdsOf(calls: seq<ToolCall>): set<string> {
    set c | c in calls :: c.id
  }

  /** The last assistant turn and its results, when all of its calls and nothing else are answered. */
  function LatestRound(ms: seq<Message>): (r: Option<nat>)
    ensures r.Some? ==> r.value + 1 < |ms| && CallsTools(ms[r.value])
    ensures r.Some? ==> forall k :: r.value < k < |ms| ==> ms[k].role == Tool
  {
    var first := FirstResult(ms, |ms|);
    if first == |ms| || first == 0 || !CallsTools(ms[first - 1]) then None
    else
      var expected := IdsOf(ms[first - 1].toolCalls);
      var actual := set k | first <= k < |ms| :: ms[k].toolCallId;
      if |ms| - first == |expected| && |actual| == |expected|
         && forall k :: first <= k < |ms| ==>
              ms[k].toolCallId.Some? && ms[k].toolCallId.value != "" && ms[k].toolCallId.value in expected
      then Some(first - 1) else None
  }

  function MaskRoundMessage(m: Message): (r: Message)
    ensures SameShape(m, r)
  {
    if m.role == Tool
    then m.(content := Some(MaskPlaceholder(m.Text())), mediaRefs := [], collapsed := Masked)
    else m.(toolCalls := MaskToolCallArguments(m.toolCalls), providerState := false, collapsed := Masked)
  }

  /** The recent round is masked without the size test, so its results get shorter only beyond the length
      that always shrinks, or where white space is dropped. */
  lemma RoundMaskLength(m: Message)
    requires m.role == Tool
    ensures MaskRoundMessage(m).Text() == MaskPlaceholder(m.Text())
    ensures |m.Text()| > MASK_HEAD_CHARS + 20 ==> |MaskRoundMessage(m).Text()| < |m.Text()|
    ensures |MaskRoundMessage(m).Text()| > |m.Text()| <==> |m.Text()| > MASK_HEAD_CHARS && Elided(m.Text()) < 20
  {
    PlaceholderLength(m.Text());
  }

  function MaskRoundWork(w: Work): Work {
    w.(msg := MaskRoundMessage(w.msg))
  }

  function MaskRound(ws: seq<Work>, start: nat, summary: Message): (r: seq<Work>)
    requires start <= |ws|
    ensures |r| == |ws| + 1
    ensures forall k :: 0 <= k < start ==> r[k] == ws[k]
    ensures forall k :: start <= k < |ws| ==> r[k] == MaskRoundWork(ws[k])
    ensures r[|ws|] == Work(summary, None, false)
  {
    ws[..start] + Map(MaskRoundWork, ws[start..]) + [Work(summary, None, false)]
  }

  /** The round the third stage would summarise: only when L3 did nothing, the list is still over
      budget, and every message of the round is stored. */
  function RoundToSummarize(ws: seq<Work>, env: Env, summarized: bool): (r: Option<nat>)
    ensures r.Some? ==> r == LatestRound(Msgs(ws))
  {
    var round := LatestRound(Msgs(ws));
    if !summarized && env.hasProvider && env.est(Msgs(ws)) >= env.budget && round.Some?
       && |DbIds(ws[round.value..])| == |ws| - round.value
    then round else None
  }

  // ----- The whole cascade -----

  datatype Outcome =
    | Unchanged
    | Threw
    | Compacted(items: seq<Work>, masked: nat, summarized: nat, dropped: nat, collapsedIds: seq<int>,
                summarizedIds: seq<int>, summaryOfIds: Option<seq<int>>, summaryMessage: Option<Message>)

  /** The range L3 asks the provider about, looking at the masked list. */
  ghost function RangeOf(ws: seq<Work>, env: Env): (r: Option<Candidate>)
    ensures r == L3Range(MaskAll(ws, env.keepRecent, env.force), env)
  {
    L3Range(MaskAll(ws, env.keepRecent, env.force), env)
  }

  /** The list after L1 and L3. `l3` is the provider's answer, absent when it throws. */
  ghost function AfterSummary(ws: seq<Work>, env: Env, l3: Option<string>): seq<Work>
    requires RangeOf(ws, env).Some? ==> l3.Some?
  {
    var range := RangeOf(ws, env);
    AfterL3(MaskAll(ws, env.keepRecent, env.force), range, L3Message(ws, env, l3))
  }

  function AfterL3(ws: seq<Work>, range: Option<Candidate>, summary: Option<Message>): seq<Work>
    requires range.Some? ==> summary.Some? && range.value.start <= range.value.end <= |ws|
  {
    if range.Some? then Splice(ws, range.value, summary.value) else ws
  }

  /** The list after L1, L3 and L2. */
  ghost function AfterWindow(ws: seq<Work>, env: Env, l3: Option<string>): (r: seq<Work>)
    requires RangeOf(ws, env).Some? ==> l3.Some?
    ensures |r| <= |AfterSummary(ws, env, l3)|
  {
    var b := AfterSummary(ws, env, l3);
    Pick(b, WindowOf(b, env))
  }

  /** The stored messages the window drops. */
  ghost function WindowDropped(ws: seq<Work>, env: Env, l3: Option<string>): seq<int>
    requires env.est(Msgs(ws)) >= env.budget && RangeOf(ws, env).Some? ==> l3.Some?
  {
    if env.est(Msgs(ws)) < env.budget then []
    else
      var b := AfterSummary(ws, env, l3);
      DbIds(Pick(b, Positions(|b|) - WindowOf(b, env)))
  }

  function RoundSummary(env: Env, body: string): Message {
    SummaryMessage(env, env.roundWording(body))
  }

  /** `round` is the outcome of summarising the recent tool round, absent when that throws. */
  ghost function RunCascade(ws: seq<Work>, env: Env, l3: Option<string>, round: Option<string>): Outcome {
    var range := RangeOf(ws, env);
    if env.est(Msgs(ws)) < env.budget then DisplayPayload(ws, env.force)
    else if range.Some? && l3.None? then Threw
    else
      var c := AfterWindow(ws, env, l3);
      var recent := RoundToSummarize(c, env, range.Some?);
      if recent.Some? && round.None? then Threw
      else Finished(ws, env, l3, recent, round)
  }

  ghost function Finished(ws: seq<Work>, env: Env, l3: Option<string>, recent: Option<nat>, round: Option<string>): (r: Outcome)
    requires RangeOf(ws, env).Some? ==> l3.Some? && recent.None?
    requires recent.Some? ==> round.Some? && recent.value < |AfterWindow(ws, env, l3)|
    ensures r.Compacted?
  {
    var c := AfterWindow(ws, env, l3);
    Assemble(c, recent, if recent.Some? then Some(RoundSummary(env, round.value)) else None,
             Pick(ws, MaskedAt(ws, env.keepRecent, env.force)), L3Ids(ws, env), L3Message(ws, env, l3),
             |AfterSummary(ws, env, l3)| - |c|)
  }

  /** The stored messages L3 replaces. */
  ghost function L3Ids(ws: seq<Work>, env: Env): seq<int> {
    var range := RangeOf(ws, env);
    if range.Some? then DbIds(MaskAll(ws, env.keepRecent, env.force)[range.value.start..range.value.end]) else []
  }

  ghost function L3Message(ws: seq<Work>, env: Env, l3: Option<string>): Option<Message>
    requires RangeOf(ws, env).Some? ==> l3.Some?
  {
    if RangeOf(ws, env).Some? then Some(SummaryMessage(env, l3.value)) else None
  }

  /** The report, given what the stages left: `c` is the list, `hit` what L1 masked. */
  function Assemble(c: seq<Work>, recent: Option<nat>, roundSummary: Option<Message>, hit: seq<Work>,
                    l3Ids: seq<int>, l3Summary: Option<Message>, dropped: nat): (r: Outcome)
    requires recent.Some? ==> roundSummary.Some? && recent.value <= |c|
    ensures r.Compacted?
  {
    if recent.Some? then
      var ids := DbIds(c[recent.value..]);
      Compacted(MaskRound(c, recent.value, roundSummary.value), |hit| + |ids|, |ids|, dropped,
                DbIds(hit) + ids, [], Some(ids), roundSummary)
    else
      Compacted(c, |hit|, |l3Ids|, dropped, DbIds(hit), l3Ids, None, l3Summary)
  }

  /** Under budget only the payloads of forced tools are masked. */
  function DisplayPayload(ws: seq<Work>, force: set<string>): Outcome {
    var masked := Pick(ws, MaskedAt(ws, MAX_SAFE_INTEGER, force));
    if masked == [] then Unchanged
    else Compacted(MaskAll(ws, MAX_SAFE_INTEGER, force), |masked|, 0, 0, DbIds(masked), [], None, None)
  }
}
