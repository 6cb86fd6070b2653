/** Folding the ordered events of a run into the linear parts of a message. */
module HistoryFold {
  import opened Wrappers

  datatype Timing = Timing(startedAt: Option<string>, endedAt: Option<string>, durationMs: Option<int>)

  const NO_TIMING := Timing(None, None, None)

  /** A tool call as it is shown; output and end time arrive with the result. */
  datatype Tool = Tool(id: string, name: string, step: int, input: Option<string>, startedAt: Option<string>,
                       output: Option<string>, endedAt: Option<string>, durationMs: Option<int>)

  datatype Part =
    | TextPart(text: string)
    | ReasoningPart(text: string, reasonStep: Option<int>, timing: Timing)
    | ReasoningTimingPart(timedStep: Option<int>, timing: Timing)
    | ToolPart(tool: Tool)
    | ToolTimingPart(id: string, step: int, timing: Timing)
    | UsagePart(step: int, usage: string)
    | CardPart(kind: string, step: int, data: string)
    | FinalPart(step: int, output: string, reason: string)
    | StatsPart(stats: string)

  datatype Event =
    | StreamStats(stats: string)
    | UsageUpdate(step: int, usage: string)
    | Reasoning(step: int, delta: string, timing: Timing)
    | ReasoningTiming(step: int, timing: Timing)
    | Text(delta: string)
    | Notice(message: string)
    | Failure(message: string)
    | Card(kind: string, step: int, data: string)
    | ToolEvent(call: Tool)
    | FinalEvent(step: int, output: string, reason: string)
    | StepStart

  datatype State = State(parts: seq<Part>, toolById: map<string, nat>, textBuf: string, reasonBuf: string,
                         reasonStep: Option<int>, reasonTiming: Timing, latestStats: Option<string>)

  const START := State([], map[], "", "", None, NO_TIMING, None)

  // ----- The fold -----

  predicate Indexed(s: State) {
    forall id :: id in s.toolById ==> s.toolById[id] < |s.parts| && s.parts[s.toolById[id]].ToolPart?
  }

  predicate Given(s: Option<string>) {
    s.Some? && s.value != ""
  }

  function FlushText(s: State): (r: State)
    ensures Indexed(s) ==> Indexed(r)
  {
    if s.textBuf != "" then s.(parts := s.parts + [TextPart(s.textBuf)], textBuf := "") else s
  }

  function FlushReason(s: State): (r: State)
    ensures Indexed(s) ==> Indexed(r)
  {
    if s.reasonBuf == "" then s
    else
      var timed := if Given(s.reasonTiming.startedAt) && Given(s.reasonTiming.endedAt)
                   then [ReasoningTimingPart(s.reasonStep, s.reasonTiming)] else [];
      s.(parts := s.parts + [ReasoningPart(s.reasonBuf, s.reasonStep, s.reasonTiming)] + timed,
         reasonBuf := "", reasonStep := None, reasonTiming := NO_TIMING)
  }

  function Flush(s: State): (r: State)
    ensures Indexed(s) ==> Indexed(r)
  {
    FlushText(FlushReason(s))
  }

  function Push(s: State, p: Part): (r: State)
    ensures Indexed(s) ==> Indexed(r)
  {
    s.(parts := s.parts + [p])
  }

  /** A later event of a call replaces the input and the start time if it brings them; a result ends it. */
  function Updated(t: Tool, e: Tool): Tool {
    var started := t.(input := if e.input.Some? then e.input else t.input,
                      startedAt := if Given(e.startedAt) then e.startedAt else t.startedAt);
    if e.output.Some? then started.(output := e.output, endedAt := e.endedAt, durationMs := e.durationMs) else started
  }

  function Opened(e: Tool): Tool {
    e.(output := None, endedAt := None, durationMs := None)
  }

  function ToolTiming(e: Tool): seq<Part> {
    if e.output.Some? && Given(e.startedAt) && Given(e.endedAt)
    then [ToolTimingPart(e.id, e.step, Timing(e.startedAt, e.endedAt, e.durationMs))] else []
  }

  function ApplyTool(s: State, e: Tool): (r: State)
    requires Indexed(s)
    ensures Indexed(r)
  {
    if e.id in s.toolById then
      var k := s.toolById[e.id];
      s.(parts := s.parts[k := ToolPart(Updated(s.parts[k].tool, e))] + ToolTiming(e))
    else
      s.(parts := s.parts + [ToolPart(Updated(Opened(e), e))] + ToolTiming(e),
         toolById := s.toolById[e.id := |s.parts|])
  }

  function Apply(s: State, e: Event): (r: State)
    requires Indexed(s)
    ensures Indexed(r)
  {
    match e
    case StreamStats(stats) => s.(latestStats := Some(stats))
    case UsageUpdate(step, usage) => Push(s, UsagePart(step, usage))
    case Reasoning(step, delta, timing) =>
      var t := FlushText(s);
      t.(reasonStep := Some(step), reasonBuf := t.reasonBuf + delta,
         reasonTiming := if Given(timing.startedAt) || Given(timing.endedAt) || timing.durationMs.Some? then timing
                         else t.reasonTiming)
    case ReasoningTiming(step, timing) =>
      var t := s.(reasonTiming := timing);
      if t.reasonBuf == "" then Push(t, ReasoningTimingPart(Some(step), timing)) else t
    case Text(delta) =>
      var t := FlushReason(s);
      t.(textBuf := t.textBuf + delta)
    case Notice(message) => Push(Flush(s), TextPart(message))
    case Failure(message) => Push(Flush(s), TextPart("⚠️ " + message))
    case Card(kind, step, data) => Push(Flush(s), CardPart(kind, step, data))
    case ToolEvent(call) => ApplyTool(Flush(s), call)
    case FinalEvent(step, output, reason) =>
      var t := FlushReason(s);
      var u := if t.textBuf != "" then FlushText(t) else if output != "" then Push(t, TextPart(output)) else t;
      Push(u, FinalPart(step, output, reason))
    case StepStart => s
  }

  function ApplyAll(s: State, events: seq<Event>): (r: State)
    requires Indexed(s)
    ensures Indexed(r)
  {
    if events == [] then s else Apply(ApplyAll(s, events[..|events| - 1]), events[|events| - 1])
  }

  function Finished(s: State): seq<Part> {
    Flush(s).parts + (if s.latestStats.Some? then [StatsPart(s.latestStats.value)] else [])
  }

  function Fold(events: seq<Event>): seq<Part> {
    Finished(ApplyAll(START, events))
  }

  // ----- How a delta is cut into pieces does not matter -----

  predicate Joins(a: Event, b: Event) {
    || (a.Text? && b.Text?)
    || (a.Reasoning? && b.Reasoning? && a.step == b.step && a.timing == b.timing)
  }

  function Joined(a: Event, b: Event): Event
    requires Joins(a, b)
  {
    if a.Text? then Text(a.delta + b.delta) else a.(delta := a.delta + b.delta)
  }

  /** Neighbouring pieces of one delta put together again. */
  function Merged(events: seq<Event>): seq<Event> {
    if events == [] then []
    else
      var init, e := Merged(events[..|events| - 1]), events[|events| - 1];
      if init != [] && Joins(init[|init| - 1], e) then init[..|init| - 1] + [Joined(init[|init| - 1], e)]
      else init + [e]
  }

  lemma TwoPieces(s: State, a: Event, b: Event)
    requires Indexed(s) && Joins(a, b)
    ensures Apply(Apply(s, a), b) == Apply(s, Joined(a, b))
  {
    if a.Text? {
      assert FlushReason(Apply(s, a)) == Apply(s, a);
      assert FlushReason(s).textBuf + a.delta + b.delta == FlushReason(s).textBuf + (a.delta + b.delta);
    } else {
      assert FlushText(Apply(s, a)) == Apply(s, a);
      assert FlushText(s).reasonBuf + a.delta + b.delta == FlushText(s).reasonBuf + (a.delta + b.delta);
    }
  }

  lemma {:induction false} MergingKeepsState(s: State, events: seq<Event>)
    requires Indexed(s)
    ensures ApplyAll(s, Merged(events)) == ApplyAll(s, events)
  {
    hide Apply;
    if events != [] {
      var init, e := Merged(events[..|events| - 1]), events[|events| - 1];
      MergingKeepsState(s, events[..|events| - 1]);
      if init != [] && Joins(init[|init| - 1], e) {
        var head, last := init[..|init| - 1], init[|init| - 1];
        TwoPieces(ApplyAll(s, head), last, e);
        assert (head + [Joined(last, e)])[..|head|] == head;
      } else {
        assert (init + [e])[..|init|] == init;
      }
    }
  }

  /** Event lists that differ only in how deltas of the same step and timing are cut fold to the same parts. */
  lemma CutsDoNotMatter(a: seq<Event>, b: seq<Event>)
    requires Merged(a) == Merged(b)
    ensures Fold(a) == Fold(b)
  {
    MergingKeepsState(START, a);
    MergingKeepsState(START, b);
  }

  // ----- One part for each tool call -----

  /** What has become of a call after some events. */
  function ToolAfter(events: seq<Event>, id: string): Option<Tool> {
    if events == [] then None
    else
      var before, e := ToolAfter(events[..|events| - 1], id), events[|events| - 1];
      if !e.ToolEvent? || e.call.id != id then before
      else if before.None? then Some(Updated(Opened(e.call), e.call))
      else Some(Updated(before.value, e.call))
  }

  /** Exactly the indexed parts are tool parts, each under its own id and with what became of the call. */
  ghost predicate ToolsInOrder(s: State, events: seq<Event>) {
    && Indexed(s)
    && (forall id :: id in s.toolById <==> ToolAfter(events, id).Some?)
    && (forall id :: id in s.toolById ==>
          s.parts[s.toolById[id]].tool.id == id && ToolAfter(events, id) == Some(s.parts[s.toolById[id]].tool))
    && (forall k :: 0 <= k < |s.parts| && s.parts[k].ToolPart? ==>
          s.parts[k].tool.id in s.toolById && s.toolById[s.parts[k].tool.id] == k)
  }

  /** Parts added at the end that are no tool parts change nothing about the tools. */
  predicate Extends(s: State, t: State) {
    && |s.parts| <= |t.parts| && t.parts[..|s.parts|] == s.parts && t.toolById == s.toolById
    && forall k :: |s.parts| <= k < |t.parts| ==> !t.parts[k].ToolPart?
  }

  lemma ExtendingKeepsTools(s: State, t: State, events: seq<Event>)
    requires ToolsInOrder(s, events) && Extends(s, t)
    ensures ToolsInOrder(t, events)
  {
    assert forall k :: 0 <= k < |s.parts| ==> t.parts[k] == t.parts[..|s.parts|][k];
  }

  lemma FlushExtends(s: State)
    ensures Extends(s, FlushReason(s)) && Extends(s, FlushText(s)) && Extends(s, Flush(s))
  {
    var t := FlushReason(s);
    assert FlushText(t).parts[..|s.parts|] == t.parts[..|s.parts|];
  }

  lemma PushExtends(s: State, p: Part)
    requires !p.ToolPart?
    ensures Extends(s, Push(s, p))
  {
  }

  lemma ExtendsCompose(s: State, t: State, u: State)
    requires Extends(s, t) && Extends(t, u)
    ensures Extends(s, u)
  {
    assert u.parts[..|s.parts|] == u.parts[..|t.parts|][..|s.parts|];
    assert forall k :: |s.parts| <= k < |t.parts| ==> u.parts[k] == u.parts[..|t.parts|][k];
  }

  lemma FinalExtends(s: State, step: int, output: string, reason: string)
    requires Indexed(s)
    ensures Extends(s, Apply(s, FinalEvent(step, output, reason)))
  {
    hide Extends, FlushReason, FlushText, Push;
    var t := FlushReason(s);
    var u := if t.textBuf != "" then FlushText(t) else if output != "" then Push(t, TextPart(output)) else t;
    FlushExtends(s);
    FlushExtends(t);
    PushExtends(t, TextPart(output));
    PushExtends(u, FinalPart(step, output, reason));
    SelfExtends(t);
    ExtendsCompose(s, t, u);
    ExtendsCompose(s, u, Push(u, FinalPart(step, output, reason)));
  }

  lemma SelfExtends(s: State)
    ensures Extends(s, s)
  {
  }

  lemma PushedExtends(s: State, p: Part)
    requires !p.ToolPart?
    ensures Extends(s, Push(Flush(s), p))
  {
    hide Extends, Flush, Push;
    FlushExtends(s);
    PushExtends(Flush(s), p);
    ExtendsCompose(s, Flush(s), Push(Flush(s), p));
  }

  lemma OtherEventsExtend(s: State, e: Event)
    requires Indexed(s) && !e.ToolEvent?
    ensures Extends(s, Apply(s, e))
  {
    hide Flush, FlushReason, FlushText;
    FlushExtends(s);
    match e
    case FinalEvent(step, output, reason) => FinalExtends(s, step, output, reason);
    case Notice(message) => PushedExtends(s, TextPart(message));
    case Failure(message) => PushedExtends(s, TextPart("⚠️ " + message));
    case Card(kind, step, data) => PushedExtends(s, CardPart(kind, step, data));
    case _ =>
  }

  lemma ToolAfterOneMore(events: seq<Event>, e: Tool)
    ensures forall id :: id != e.id ==> ToolAfter(events + [ToolEvent(e)], id) == ToolAfter(events, id)
    ensures var before := ToolAfter(events, e.id);
      ToolAfter(events + [ToolEvent(e)], e.id) ==
        Some(if before.None? then Updated(Opened(e), e) else Updated(before.value, e))
  {
    assert (events + [ToolEvent(e)])[..|events|] == events;
  }

  /** A further event of a call replaces its part. */
  lemma KnownToolStays(s: State, events: seq<Event>, e: Tool)
    requires ToolsInOrder(s, events) && e.id in s.toolById
    ensures var k := s.toolById[e.id];
      ToolsInOrder(s.(parts := s.parts[k := ToolPart(Updated(s.parts[k].tool, e))]), events + [ToolEvent(e)])
  {
    hide ToolAfter;
    ToolAfterOneMore(events, e);
  }

  /** The first event of a call adds its part. */
  lemma NewToolEnters(s: State, events: seq<Event>, e: Tool)
    requires ToolsInOrder(s, events) && e.id !in s.toolById
    ensures ToolsInOrder(s.(parts := s.parts + [ToolPart(Updated(Opened(e), e))],
                            toolById := s.toolById[e.id := |s.parts|]), events + [ToolEvent(e)])
  {
    hide ToolAfter;
    ToolAfterOneMore(events, e);
  }

  lemma ToolEventKeepsTools(s: State, events: seq<Event>, e: Tool)
    requires ToolsInOrder(s, events)
    ensures ToolsInOrder(ApplyTool(s, e), events + [ToolEvent(e)])
  {
    var t := ApplyTool(s, e);
    if e.id in s.toolById {
      var k := s.toolById[e.id];
      var u := s.(parts := s.parts[k := ToolPart(Updated(s.parts[k].tool, e))]);
      KnownToolStays(s, events, e);
      hide ToolsInOrder, Updated;
      assert t.parts[..|u.parts|] == u.parts;
      ExtendingKeepsTools(u, t, events + [ToolEvent(e)]);
    } else {
      var u := s.(parts := s.parts + [ToolPart(Updated(Opened(e), e))], toolById := s.toolById[e.id := |s.parts|]);
      NewToolEnters(s, events, e);
      hide ToolsInOrder, Updated;
      assert t.parts[..|u.parts|] == u.parts;
      ExtendingKeepsTools(u, t, events + [ToolEvent(e)]);
    }
  }

  lemma {:induction false} RunKeepsTools(events: seq<Event>)
    ensures ToolsInOrder(ApplyAll(START, events), events)
  {
    if events != [] {
      var init, e := events[..|events| - 1], events[|events| - 1];
      RunKeepsTools(init);
      assert init + [e] == events;
      EventKeepsTools(ApplyAll(START, init), init, e);
    }
  }

  lemma EventKeepsTools(s: State, events: seq<Event>, e: Event)
    requires ToolsInOrder(s, events)
    ensures ToolsInOrder(Apply(s, e), events + [e])
  {
    assert Indexed(s);
    hide ToolsInOrder, Extends, Flush, ApplyTool, ToolAfter;
    if e.ToolEvent? {
      FlushExtends(s);
      ExtendingKeepsTools(s, Flush(s), events);
      ToolEventKeepsTools(Flush(s), events, e.call);
    } else {
      OtherEventsExtend(s, e);
      ExtendingKeepsTools(s, Apply(s, e), events);
      NoToolComes(events, e);
      SameTools(Apply(s, e), events, events + [e]);
    }
  }

  lemma NoToolComes(events: seq<Event>, e: Event)
    requires !e.ToolEvent?
    ensures forall id :: ToolAfter(events + [e], id) == ToolAfter(events, id)
  {
    assert (events + [e])[..|events|] == events;
  }

  lemma SameTools(s: State, a: seq<Event>, b: seq<Event>)
    requires ToolsInOrder(s, a) && forall id :: ToolAfter(b, id) == ToolAfter(a, id)
    ensures ToolsInOrder(s, b)
  {
  }

  /** A call that the events mention has one part, which holds what became of it; no other part is a tool
      part. */
  lemma OnePartPerCall(events: seq<Event>, id: string)
    ensures ToolAfter(events, id).Some? <==> exists k :: 0 <= k < |Fold(events)| && IsToolPart(Fold(events)[k], id)
    ensures forall k :: 0 <= k < |Fold(events)| && IsToolPart(Fold(events)[k], id) ==>
              ToolAfter(events, id) == Some(Fold(events)[k].tool)
    ensures forall j, k :: 0 <= j < k < |Fold(events)| ==>
              !(IsToolPart(Fold(events)[j], id) && IsToolPart(Fold(events)[k], id))
  {
    var s := ApplyAll(START, events);
    RunKeepsTools(events);
    FlushExtends(s);
    ExtendingKeepsTools(s, Flush(s), events);
    var t := Flush(s);
    assert forall k :: 0 <= k < |t.parts| ==> Fold(events)[k] == t.parts[k];
    assert forall k :: |t.parts| <= k < |Fold(events)| ==> Fold(events)[k].StatsPart?;
    if id in t.toolById {
      assert IsToolPart(Fold(events)[t.toolById[id]], id);
    }
  }

  predicate IsToolPart(p: Part, id: string) {
    p.ToolPart? && p.tool.id == id
  }

  // ----- What a call shows -----

  datatype Field = Input | Output | StartTime

  /** The event is one of the call and brings this about it. */
  predicate Brings(e: Event, id: string, field: Field) {
    e.ToolEvent? && e.call.id == id &&
    match field
    case Input => e.call.input.Some?
    case Output => e.call.output.Some?
    case StartTime => Given(e.call.startedAt)
  }

  predicate LastBringing(events: seq<Event>, k: nat, id: string, field: Field) {
    k < |events| && Brings(events[k], id, field) && forall j :: k < j < |events| ==> !Brings(events[j], id, field)
  }

  predicate NoneBrings(events: seq<Event>, id: string, field: Field) {
    forall j :: 0 <= j < |events| ==> !Brings(events[j], id, field)
  }

  predicate FirstOf(events: seq<Event>, k: nat, id: string) {
    k < |events| && events[k].ToolEvent? && events[k].call.id == id
    && forall j :: 0 <= j < k ==> !(events[j].ToolEvent? && events[j].call.id == id)
  }

  lemma LastOrEarlier(events: seq<Event>, k: nat, id: string, field: Field)
    requires events != []
    ensures var n := |events| - 1;
      && (LastBringing(events, k, id, field) <==>
            if Brings(events[n], id, field) then k == n else LastBringing(events[..n], k, id, field))
      && (NoneBrings(events, id, field) <==> NoneBrings(events[..n], id, field) && !Brings(events[n], id, field))
  {
    var n := |events| - 1;
    assert forall j :: 0 <= j < n ==> events[..n][j] == events[j];
    if LastBringing(events, k, id, field) && Brings(events[n], id, field) {
      assert !(k < n);
    }
  }

  /** The input, the output with its end and duration, and the start time of a call are those that the last
      event with them brings, and none if there is no such event. */
  lemma {:induction false} ToolShowsLast(events: seq<Event>, id: string, k: nat)
    requires ToolAfter(events, id).Some?
    ensures var t := ToolAfter(events, id).value;
      && (LastBringing(events, k, id, Input) ==> t.input == events[k].call.input)
      && (LastBringing(events, k, id, StartTime) ==> t.startedAt == events[k].call.startedAt)
      && (LastBringing(events, k, id, Output) ==>
            t.output == events[k].call.output && t.endedAt == events[k].call.endedAt && t.durationMs == events[k].call.durationMs)
      && (NoneBrings(events, id, Input) ==> t.input.None?)
      && (NoneBrings(events, id, StartTime) ==> !Given(t.startedAt))
      && (NoneBrings(events, id, Output) ==> t.output.None? && t.endedAt.None? && t.durationMs.None?)
  {
    hide LastBringing, NoneBrings;
    var n := |events| - 1;
    var init, e := events[..n], events[n];
    LastOrEarlier(events, k, id, Input);
    LastOrEarlier(events, k, id, Output);
    LastOrEarlier(events, k, id, StartTime);
    if ToolAfter(init, id).Some? {
      ToolShowsLast(init, id, k);
      LastIsInside(init, k, id);
    } else {
      NothingBrought(init, id, k);
    }
  }

  lemma LastIsInside(events: seq<Event>, k: nat, id: string)
    ensures forall field :: LastBringing(events, k, id, field) ==> k < |events|
  {
  }

  lemma {:induction false} NoEventOf(events: seq<Event>, id: string)
    requires ToolAfter(events, id).None?
    ensures forall j :: 0 <= j < |events| && events[j].ToolEvent? ==> events[j].call.id != id
  {
    if events != [] {
      var n := |events| - 1;
      NoEventOf(events[..n], id);
      assert forall j :: 0 <= j < n ==> events[..n][j] == events[j];
    }
  }

  lemma NothingBrought(events: seq<Event>, id: string, k: nat)
    requires ToolAfter(events, id).None?
    ensures forall field :: NoneBrings(events, id, field) && !LastBringing(events, k, id, field)
  {
    NoEventOf(events, id);
  }

  /** Its name and its step are those of its first event. */
  lemma {:induction false} ToolShowsFirst(events: seq<Event>, id: string, k: nat)
    requires FirstOf(events, k, id)
    ensures ToolAfter(events, id).Some?
    ensures var t := ToolAfter(events, id).value;
      t.id == id && t.name == events[k].call.name && t.step == events[k].call.step
  {
    var n := |events| - 1;
    if k < n {
      ToolShowsFirst(events[..n], id, k);
    } else {
      NoToolBefore(events[..n], id);
    }
  }

  lemma {:induction false} NoToolBefore(events: seq<Event>, id: string)
    requires forall j :: 0 <= j < |events| ==> !(events[j].ToolEvent? && events[j].call.id == id)
    ensures ToolAfter(events, id).None?
  {
    if events != [] {
      NoToolBefore(events[..|events| - 1], id);
    }
  }

  // ----- No text is lost -----

  function ReasoningText(parts: seq<Part>): string {
    if parts == [] then ""
    else ReasoningText(parts[..|parts| - 1]) + (if parts[|parts| - 1].ReasoningPart? then parts[|parts| - 1].text else "")
  }

  function PlainText(parts: seq<Part>): string {
    if parts == [] then ""
    else PlainText(parts[..|parts| - 1]) + (if parts[|parts| - 1].TextPart? then parts[|parts| - 1].text else "")
  }

  function ReasoningIn(events: seq<Event>): string {
    if events == [] then ""
    else ReasoningIn(events[..|events| - 1]) + (if events[|events| - 1].Reasoning? then events[|events| - 1].delta else "")
  }

  /** The text since the last event that closes a text part. */
  function OpenText(events: seq<Event>): string {
    if events == [] then "" else OpenAfter(events[|events| - 1], OpenText(events[..|events| - 1]))
  }

  /** All the text the events bring; a final output counts only where no text is open before it. */
  function TextIn(events: seq<Event>): string {
    if events == [] then ""
    else
      var init := events[..|events| - 1];
      TextIn(init) + TextOf(events[|events| - 1], OpenText(init))
  }

  lemma TextsSnoc(parts: seq<Part>, p: Part)
    ensures PlainText(parts + [p]) == PlainText(parts) + (if p.TextPart? then p.text else "")
    ensures ReasoningText(parts + [p]) == ReasoningText(parts) + (if p.ReasoningPart? then p.text else "")
  {
    assert (parts + [p])[..|parts|] == parts;
  }

  lemma {:induction false} TextsAppend(parts: seq<Part>, more: seq<Part>)
    requires forall k :: 0 <= k < |more| ==> !more[k].TextPart? && !more[k].ReasoningPart?
    ensures PlainText(parts + more) == PlainText(parts) && ReasoningText(parts + more) == ReasoningText(parts)
  {
    if more == [] {
      assert parts + more == parts;
    } else {
      var init := more[..|more| - 1];
      TextsAppend(parts, init);
      TextsSnoc(parts + init, more[|more| - 1]);
      assert parts + more == parts + init + [more[|more| - 1]];
    }
  }

  lemma {:induction false} TextsOfUpdate(parts: seq<Part>, k: nat, t: Tool)
    requires k < |parts| && parts[k].ToolPart?
    ensures PlainText(parts[k := ToolPart(t)]) == PlainText(parts)
    ensures ReasoningText(parts[k := ToolPart(t)]) == ReasoningText(parts)
  {
    var n := |parts| - 1;
    if k < n {
      TextsOfUpdate(parts[..n], k, t);
      assert parts[k := ToolPart(t)][..n] == parts[..n][k := ToolPart(t)];
    } else {
      assert parts[k := ToolPart(t)][..n] == parts[..n];
    }
  }

  /** The text shown so far and the text still buffered. */
  function AllText(s: State): string {
    PlainText(s.parts) + s.textBuf
  }

  function AllReasoning(s: State): string {
    ReasoningText(s.parts) + s.reasonBuf
  }

  lemma FlushReasonKeepsTexts(s: State)
    ensures AllText(FlushReason(s)) == AllText(s) && AllReasoning(FlushReason(s)) == AllReasoning(s)
    ensures FlushReason(s).textBuf == s.textBuf && FlushReason(s).reasonBuf == ""
  {
    if s.reasonBuf != "" {
      var p := ReasoningPart(s.reasonBuf, s.reasonStep, s.reasonTiming);
      TextsSnoc(s.parts, p);
      TextsAppend(s.parts + [p], [ReasoningTimingPart(s.reasonStep, s.reasonTiming)]);
      assert s.parts + [p] + [] == s.parts + [p];
    }
  }

  lemma FlushTextKeepsTexts(s: State)
    ensures AllText(FlushText(s)) == AllText(s) && AllReasoning(FlushText(s)) == AllReasoning(s)
    ensures FlushText(s).reasonBuf == s.reasonBuf && FlushText(s).textBuf == ""
  {
    TextsSnoc(s.parts, TextPart(s.textBuf));
  }

  lemma FlushKeepsTexts(s: State)
    ensures AllText(Flush(s)) == AllText(s) && AllReasoning(Flush(s)) == AllReasoning(s)
    ensures Flush(s).reasonBuf == "" && Flush(s).textBuf == ""
  {
    FlushReasonKeepsTexts(s);
    FlushTextKeepsTexts(FlushReason(s));
  }

  lemma ToolKeepsTexts(s: State, e: Tool)
    requires Indexed(s) && s.textBuf == "" && s.reasonBuf == ""
    ensures var t := ApplyTool(s, e);
      AllText(t) == AllText(s) && AllReasoning(t) == AllReasoning(s) && t.textBuf == "" && t.reasonBuf == ""
  {
    if e.id in s.toolById {
      var k := s.toolById[e.id];
      var tool := Updated(s.parts[k].tool, e);
      TextsOfUpdate(s.parts, k, tool);
      TextsAppend(s.parts[k := ToolPart(tool)], ToolTiming(e));
    } else {
      TextsSnoc(s.parts, ToolPart(Updated(Opened(e), e)));
      TextsAppend(s.parts + [ToolPart(Updated(Opened(e), e))], ToolTiming(e));
    }
  }

  /** The text an event brings, given the text still open before it. */
  function TextOf(e: Event, open: string): string {
    match e
    case Text(delta) => delta
    case Notice(message) => message
    case Failure(message) => "⚠️ " + message
    case FinalEvent(_, output, _) => if open == "" then output else ""
    case _ => ""
  }

  function OpenAfter(e: Event, open: string): string {
    match e
    case Text(delta) => open + delta
    case StreamStats(_) => open
    case UsageUpdate(_, _) => open
    case ReasoningTiming(_, _) => open
    case StepStart => open
    case _ => ""
  }

  lemma FinalKeepsTexts(s: State, step: int, output: string, reason: string)
    requires Indexed(s)
    ensures var e := FinalEvent(step, output, reason);
      && AllText(Apply(s, e)) == AllText(s) + TextOf(e, s.textBuf) && AllReasoning(Apply(s, e)) == AllReasoning(s)
      && Apply(s, e).textBuf == ""
  {
    hide FlushReason, FlushText, PlainText, ReasoningText;
    FlushReasonKeepsTexts(s);
    var t := FlushReason(s);
    FlushTextKeepsTexts(t);
    TextsSnoc(t.parts, TextPart(output));
    var u := if t.textBuf != "" then FlushText(t) else if output != "" then Push(t, TextPart(output)) else t;
    TextsSnoc(u.parts, FinalPart(step, output, reason));
  }

  predicate AddsTexts(s: State, e: Event)
    requires Indexed(s)
  {
    && AllText(Apply(s, e)) == AllText(s) + TextOf(e, s.textBuf)
    && AllReasoning(Apply(s, e)) == AllReasoning(s) + (if e.Reasoning? then e.delta else "")
    && Apply(s, e).textBuf == OpenAfter(e, s.textBuf)
  }

  lemma StreamedTexts(s: State, e: Event)
    requires Indexed(s) && (e.Text? || e.Reasoning?)
    ensures AddsTexts(s, e)
  {
    hide FlushReason, FlushText, PlainText, ReasoningText;
    FlushTextKeepsTexts(s);
    FlushReasonKeepsTexts(s);
  }

  lemma PushedTexts(s: State, e: Event)
    requires Indexed(s) && (e.Notice? || e.Failure? || e.Card?)
    ensures AddsTexts(s, e)
  {
    hide Flush, PlainText, ReasoningText;
    FlushKeepsTexts(s);
    match e
    case Notice(message) => TextsSnoc(Flush(s).parts, TextPart(message));
    case Failure(message) => TextsSnoc(Flush(s).parts, TextPart("⚠️ " + message));
    case Card(kind, step, data) => TextsSnoc(Flush(s).parts, CardPart(kind, step, data));
  }

  lemma QuietTexts(s: State, e: Event)
    requires Indexed(s) && (e.UsageUpdate? || e.ReasoningTiming? || e.StreamStats? || e.StepStart?)
    ensures AddsTexts(s, e)
  {
    hide PlainText, ReasoningText;
    match e
    case UsageUpdate(step, usage) => TextsSnoc(s.parts, UsagePart(step, usage));
    case ReasoningTiming(step, timing) => TextsSnoc(s.parts, ReasoningTimingPart(Some(step), timing));
    case StreamStats(_) =>
    case StepStart =>
  }

  lemma ToolTexts(s: State, call: Tool)
    requires Indexed(s)
    ensures AddsTexts(s, ToolEvent(call))
  {
    hide Flush, ApplyTool, PlainText, ReasoningText;
    FlushKeepsTexts(s);
    ToolKeepsTexts(Flush(s), call);
  }

  lemma ApplyKeepsTexts(s: State, e: Event)
    requires Indexed(s)
    ensures AllText(Apply(s, e)) == AllText(s) + TextOf(e, s.textBuf)
    ensures AllReasoning(Apply(s, e)) == AllReasoning(s) + (if e.Reasoning? then e.delta else "")
    ensures Apply(s, e).textBuf == OpenAfter(e, s.textBuf)
  {
    hide Apply, AllText, AllReasoning;
    match e
    case FinalEvent(step, output, reason) => FinalKeepsTexts(s, step, output, reason);
    case ToolEvent(call) => ToolTexts(s, call);
    case Text(_) => StreamedTexts(s, e);
    case Reasoning(_, _, _) => StreamedTexts(s, e);
    case Notice(_) => PushedTexts(s, e);
    case Failure(_) => PushedTexts(s, e);
    case Card(_, _, _) => PushedTexts(s, e);
    case _ => QuietTexts(s, e);
  }

  lemma NothingYet()
    ensures AllText(START) == "" && AllReasoning(START) == ""
  {
  }

  lemma {:induction false} RunKeepsTexts(events: seq<Event>)
    ensures var s := ApplyAll(START, events);
      AllText(s) == TextIn(events) && AllReasoning(s) == ReasoningIn(events) && s.textBuf == OpenText(events)
  {
    hide Apply, AllText, AllReasoning;
    if events == [] {
      NothingYet();
    } else {
      RunKeepsTexts(events[..|events| - 1]);
      ApplyKeepsTexts(ApplyAll(START, events[..|events| - 1]), events[|events| - 1]);
    }
  }

  /** No reasoning and no text is lost, repeated or reordered among its kind. */
  lemma NothingIsLost(events: seq<Event>)
    ensures PlainText(Fold(events)) == TextIn(events)
    ensures ReasoningText(Fold(events)) == ReasoningIn(events)
  {
    hide Flush, PlainText, ReasoningText;
    var s := ApplyAll(START, events);
    RunKeepsTexts(events);
    FlushKeepsTexts(s);
    if s.latestStats.Some? {
      TextsSnoc(Flush(s).parts, StatsPart(s.latestStats.value));
    } else {
      assert Flush(s).parts + [] == Flush(s).parts;
    }
    FlushKeepsStats(s);
  }

  lemma FlushKeepsStats(s: State)
    ensures Flush(s).latestStats == s.latestStats
  {
  }

  // ----- The order of all parts -----

  /** A part without what a later event may still bring to a tool. */
  datatype Mark =
    | Said(text: string)
    | Reasoned(text: string, step: Option<int>, timing: Timing)
    | Called(id: string)
    | Other(part: Part)

  function MarkOf(p: Part): Mark {
    match p
    case TextPart(text) => Said(text)
    case ReasoningPart(text, step, timing) => Reasoned(text, step, timing)
    case ToolPart(tool) => Called(tool.id)
    case _ => Other(p)
  }

  function Marks(parts: seq<Part>): (r: seq<Mark>)
    ensures |r| == |parts|
    ensures forall k :: 0 <= k < |r| ==> r[k] == MarkOf(parts[k])
  {
    seq(|parts|, k requires 0 <= k < |parts| => MarkOf(parts[k]))
  }

  /** The reasoning that is still open, with its step and the last timing it was given. */
  datatype Thought = Thought(text: string, step: Option<int>, timing: Timing)

  function ThoughtAfter(e: Event, t: Thought): Thought {
    match e
    case Reasoning(step, delta, timing) =>
      var given := Given(timing.startedAt) || Given(timing.endedAt) || timing.durationMs.Some?;
      Thought(t.text + delta, Some(step), if given then timing else t.timing)
    case ReasoningTiming(_, timing) => t.(timing := timing)
    case StreamStats(_) => t
    case UsageUpdate(_, _) => t
    case StepStart => t
    case _ => if t.text == "" then t else Thought("", None, NO_TIMING)
  }

  function OpenThought(events: seq<Event>): Thought {
    if events == [] then Thought("", None, NO_TIMING)
    else ThoughtAfter(events[|events| - 1], OpenThought(events[..|events| - 1]))
  }

  /** Open reasoning becomes one part, and a second one for its timing if that is complete. */
  function ClosedThought(t: Thought): seq<Mark> {
    if t.text == "" then []
    else
      [Reasoned(t.text, t.step, t.timing)]
      + (if Given(t.timing.startedAt) && Given(t.timing.endedAt) then [Other(ReasoningTimingPart(t.step, t.timing))] else [])
  }

  function ClosedText(open: string): seq<Mark> {
    if open == "" then [] else [Said(open)]
  }

  /** The parts that an event adds behind all earlier ones, given the text and the reasoning that are open
      and whether its call is known. */
  function Adds(e: Event, open: string, t: Thought, known: bool): seq<Mark> {
    match e
    case StreamStats(_) => []
    case StepStart => []
    case UsageUpdate(step, usage) => [Other(UsagePart(step, usage))]
    case Reasoning(_, _, _) => ClosedText(open)
    case ReasoningTiming(step, timing) => if t.text == "" then [Other(ReasoningTimingPart(Some(step), timing))] else []
    case Text(_) => ClosedThought(t)
    case Notice(message) => ClosedThought(t) + ClosedText(open) + [Said(message)]
    case Failure(message) => ClosedThought(t) + ClosedText(open) + [Said("⚠️ " + message)]
    case Card(kind, step, data) => ClosedThought(t) + ClosedText(open) + [Other(CardPart(kind, step, data))]
    case ToolEvent(call) =>
      ClosedThought(t) + ClosedText(open) + (if known then [] else [Called(call.id)]) + Marks(ToolTiming(call))
    case FinalEvent(step, output, reason) =>
      ClosedThought(t) + ClosedText(if open == "" then output else open) + [Other(FinalPart(step, output, reason))]
  }

  function Known(events: seq<Event>, e: Event): bool {
    e.ToolEvent? && exists i :: 0 <= i < |events| && events[i].ToolEvent? && events[i].call.id == e.call.id
  }

  function MarksIn(events: seq<Event>): seq<Mark> {
    if events == [] then []
    else
      var init, e := events[..|events| - 1], events[|events| - 1];
      MarksIn(init) + Adds(e, OpenText(init), OpenThought(init), Known(init, e))
  }

  /** The last statistics. */
  function StatsIn(events: seq<Event>): seq<Mark> {
    if events == [] then []
    else if events[|events| - 1].StreamStats? then [Other(StatsPart(events[|events| - 1].stats))]
    else StatsIn(events[..|events| - 1])
  }

  function ThoughtOf(s: State): Thought {
    Thought(s.reasonBuf, s.reasonStep, s.reasonTiming)
  }

  predicate AddsMarks(s: State, e: Event)
    requires Indexed(s)
  {
    && Marks(Apply(s, e).parts) == Marks(s.parts) + Adds(e, s.textBuf, ThoughtOf(s), e.ToolEvent? && e.call.id in s.toolById)
    && ThoughtOf(Apply(s, e)) == ThoughtAfter(e, ThoughtOf(s))
  }

  lemma MarksOfTwo(a: seq<Part>, b: seq<Part>)
    ensures Marks(a + b) == Marks(a) + Marks(b)
  {
  }

  lemma FlushReasonMarks(s: State)
    ensures Marks(FlushReason(s).parts) == Marks(s.parts) + ClosedThought(ThoughtOf(s))
    ensures FlushReason(s).textBuf == s.textBuf && FlushReason(s).toolById == s.toolById
    ensures ThoughtOf(FlushReason(s)) == if s.reasonBuf == "" then ThoughtOf(s) else Thought("", None, NO_TIMING)
  {
    if s.reasonBuf != "" {
      var p := ReasoningPart(s.reasonBuf, s.reasonStep, s.reasonTiming);
      var timed := if Given(s.reasonTiming.startedAt) && Given(s.reasonTiming.endedAt)
                   then [ReasoningTimingPart(s.reasonStep, s.reasonTiming)] else [];
      assert s.parts + [p] + timed == s.parts + ([p] + timed);
      MarksOfTwo(s.parts, [p] + timed);
      assert Marks([p] + timed) == ClosedThought(ThoughtOf(s));
    } else {
      assert Marks(s.parts) + [] == Marks(s.parts);
    }
  }

  lemma FlushTextMarks(s: State)
    ensures Marks(FlushText(s).parts) == Marks(s.parts) + ClosedText(s.textBuf)
    ensures FlushText(s).toolById == s.toolById && ThoughtOf(FlushText(s)) == ThoughtOf(s)
  {
    if s.textBuf != "" {
      MarksOfTwo(s.parts, [TextPart(s.textBuf)]);
    } else {
      assert Marks(s.parts) + [] == Marks(s.parts);
    }
  }

  lemma FlushMarks(s: State)
    ensures Marks(Flush(s).parts) == Marks(s.parts) + (ClosedThought(ThoughtOf(s)) + ClosedText(s.textBuf))
    ensures Flush(s).toolById == s.toolById
    ensures ThoughtOf(Flush(s)) == if s.reasonBuf == "" then ThoughtOf(s) else Thought("", None, NO_TIMING)
  {
    hide FlushReason, FlushText, Marks, ClosedThought, ClosedText;
    FlushReasonMarks(s);
    FlushTextMarks(FlushReason(s));
    assert Marks(s.parts) + ClosedThought(ThoughtOf(s)) + ClosedText(s.textBuf)
        == Marks(s.parts) + (ClosedThought(ThoughtOf(s)) + ClosedText(s.textBuf));
  }

  lemma PushMarks(s: State, front: seq<Mark>, closed: seq<Mark>, p: Part)
    requires Marks(s.parts) == front + closed
    ensures Marks(Push(s, p).parts) == front + (closed + [MarkOf(p)]) && ThoughtOf(Push(s, p)) == ThoughtOf(s)
    ensures Marks([p]) == [MarkOf(p)]
  {
    MarksOfTwo(s.parts, [p]);
  }

  lemma StreamedMarks(s: State, e: Event)
    requires Indexed(s) && (e.Text? || e.Reasoning?)
    ensures AddsMarks(s, e)
  {
    hide FlushReason, FlushText, Marks, ClosedThought, ClosedText;
    FlushTextMarks(s);
    FlushReasonMarks(s);
    FlushReasonSame(s);
  }

  lemma FlushReasonSame(s: State)
    ensures FlushText(s).reasonBuf == s.reasonBuf && FlushText(s).reasonTiming == s.reasonTiming
  {
  }

  lemma PushedMarks(s: State, e: Event)
    requires Indexed(s) && (e.Notice? || e.Failure? || e.Card?)
    ensures AddsMarks(s, e)
  {
    hide Flush, Marks, ClosedThought, ClosedText;
    FlushMarks(s);
    var p := match e
      case Notice(message) => TextPart(message)
      case Failure(message) => TextPart("⚠️ " + message)
      case Card(kind, step, data) => CardPart(kind, step, data)
      case _ => TextPart("");
    PushMarks(Flush(s), Marks(s.parts), ClosedThought(ThoughtOf(s)) + ClosedText(s.textBuf), p);
  }

  lemma QuietMarks(s: State, e: Event)
    requires Indexed(s) && (e.UsageUpdate? || e.ReasoningTiming? || e.StreamStats? || e.StepStart?)
    ensures AddsMarks(s, e)
  {
    match e
    case UsageUpdate(step, usage) => MarksOfTwo(s.parts, [UsagePart(step, usage)]);
    case ReasoningTiming(step, timing) => MarksOfTwo(s.parts, [ReasoningTimingPart(Some(step), timing)]);
    case StreamStats(_) => assert Marks(s.parts) + [] == Marks(s.parts);
    case StepStart => assert Marks(s.parts) + [] == Marks(s.parts);
  }

  lemma FinalMarks(s: State, step: int, output: string, reason: string)
    requires Indexed(s)
    ensures AddsMarks(s, FinalEvent(step, output, reason))
  {
    hide FlushReason, FlushText, Marks, ClosedThought;
    FlushReasonMarks(s);
    var t := FlushReason(s);
    FlushTextMarks(t);
    var closed := ClosedThought(ThoughtOf(s));
    PushMarks(t, Marks(s.parts), closed, TextPart(output));
    var u := if t.textBuf != "" then FlushText(t) else if output != "" then Push(t, TextPart(output)) else t;
    var said := ClosedText(if s.textBuf == "" then output else s.textBuf);
    assert Marks(u.parts) == Marks(s.parts) + (closed + said);
    PushMarks(u, Marks(s.parts), closed + said, FinalPart(step, output, reason));
  }

  /** A further event of a call changes its part where it stands; the first one adds it. */
  lemma ToolChangeMarks(s: State, e: Tool)
    requires Indexed(s) && (e.id in s.toolById ==> s.parts[s.toolById[e.id]].tool.id == e.id)
    ensures Marks(ApplyTool(s, e).parts) ==
      Marks(s.parts) + ((if e.id in s.toolById then [] else [Called(e.id)]) + Marks(ToolTiming(e)))
    ensures ThoughtOf(ApplyTool(s, e)) == ThoughtOf(s)
  {
    if e.id in s.toolById {
      var k := s.toolById[e.id];
      var parts := s.parts[k := ToolPart(Updated(s.parts[k].tool, e))];
      MarksOfTwo(parts, ToolTiming(e));
      assert Marks(parts) == Marks(s.parts);
      assert [] + Marks(ToolTiming(e)) == Marks(ToolTiming(e));
    } else {
      var p := ToolPart(Updated(Opened(e), e));
      assert s.parts + [p] + ToolTiming(e) == s.parts + ([p] + ToolTiming(e));
      MarksOfTwo(s.parts, [p] + ToolTiming(e));
      MarksOfTwo([p], ToolTiming(e));
      assert Marks([p]) == [Called(e.id)];
    }
  }

  lemma ToolMarks(s: State, call: Tool)
    requires Indexed(s) && (call.id in s.toolById ==> s.parts[s.toolById[call.id]].tool.id == call.id)
    ensures AddsMarks(s, ToolEvent(call))
  {
    hide Flush, ApplyTool, Marks, ClosedThought, ClosedText, ToolTiming;
    FlushMarks(s);
    FlushExtends(s);
    var t := Flush(s);
    assert call.id in s.toolById ==> t.parts[..|s.parts|][s.toolById[call.id]] == t.parts[s.toolById[call.id]];
    ToolChangeMarks(t, call);
    var closed := ClosedThought(ThoughtOf(s)) + ClosedText(s.textBuf);
    var called := if call.id in s.toolById then [] else [Called(call.id)];
    assert Marks(s.parts) + closed + (called + Marks(ToolTiming(call)))
        == Marks(s.parts) + (closed + called + Marks(ToolTiming(call)));
  }

  lemma ApplyAddsMarks(s: State, e: Event)
    requires Indexed(s) && (e.ToolEvent? && e.call.id in s.toolById ==> s.parts[s.toolById[e.call.id]].tool.id == e.call.id)
    ensures AddsMarks(s, e)
  {
    hide AddsMarks;
    match e
    case FinalEvent(step, output, reason) => FinalMarks(s, step, output, reason);
    case ToolEvent(call) => ToolMarks(s, call);
    case Text(_) => StreamedMarks(s, e);
    case Reasoning(_, _, _) => StreamedMarks(s, e);
    case Notice(_) => PushedMarks(s, e);
    case Failure(_) => PushedMarks(s, e);
    case Card(_, _, _) => PushedMarks(s, e);
    case _ => QuietMarks(s, e);
  }

  lemma {:induction false} KnownTool(events: seq<Event>, e: Event)
    requires e.ToolEvent?
    ensures ToolAfter(events, e.call.id).Some? <==> Known(events, e)
  {
    if events != [] {
      var init, last := events[..|events| - 1], events[|events| - 1];
      KnownTool(init, e);
      assert events == init + [last];
      if i :| 0 <= i < |init| && init[i].ToolEvent? && init[i].call.id == e.call.id {
        assert events[i] == init[i];
      }
    }
  }

  lemma {:induction false} RunKeepsMarks(events: seq<Event>)
    ensures var s := ApplyAll(START, events);
      Marks(s.parts) == MarksIn(events) && ThoughtOf(s) == OpenThought(events)
  {
    hide Apply, Marks, Adds, ThoughtAfter, ToolAfter, Known;
    if events == [] {
      assert Marks([]) == [];
    } else {
      var init, e := events[..|events| - 1], events[|events| - 1];
      var s := ApplyAll(START, init);
      RunKeepsMarks(init);
      RunKeepsTools(init);
      RunKeepsTexts(init);
      if e.ToolEvent? {
        KnownTool(init, e);
      } else {
        NotKnown(init, e);
      }
      ApplyAddsMarks(s, e);
    }
  }

  lemma NotKnown(events: seq<Event>, e: Event)
    requires !e.ToolEvent?
    ensures !Known(events, e)
  {
  }

  lemma {:induction false} RunKeepsStats(events: seq<Event>)
    ensures StatsIn(events) == if ApplyAll(START, events).latestStats.Some?
                               then [Other(StatsPart(ApplyAll(START, events).latestStats.value))] else []
  {
    if events != [] {
      RunKeepsStats(events[..|events| - 1]);
      StatsStep(ApplyAll(START, events[..|events| - 1]), events[|events| - 1]);
    }
  }

  lemma StatsStep(s: State, e: Event)
    requires Indexed(s)
    ensures Apply(s, e).latestStats == if e.StreamStats? then Some(e.stats) else s.latestStats
  {
  }

  /** The parts stand in the order of the events: each event adds its own parts behind all earlier ones, an
      event of another kind first closes the open text or reasoning, and the last statistics come last. */
  lemma PartsInOrder(events: seq<Event>)
    ensures Marks(Fold(events)) ==
      MarksIn(events) + ClosedThought(OpenThought(events)) + ClosedText(OpenText(events)) + StatsIn(events)
  {
    hide Marks, MarksIn, ClosedThought, ClosedText, Flush;
    var s := ApplyAll(START, events);
    RunKeepsMarks(events);
    RunKeepsTexts(events);
    RunKeepsStats(events);
    FlushMarks(s);
    FlushKeepsStats(s);
    var stats := if s.latestStats.Some? then [StatsPart(s.latestStats.value)] else [];
    MarksOfTwo(Flush(s).parts, stats);
    assert Marks(stats) == StatsIn(events) by { MarksOfStats(s); }
    assert MarksIn(events) + (ClosedThought(OpenThought(events)) + ClosedText(OpenText(events)))
        == MarksIn(events) + ClosedThought(OpenThought(events)) + ClosedText(OpenText(events));
  }

  lemma MarksOfStats(s: State)
    ensures Marks(if s.latestStats.Some? then [StatsPart(s.latestStats.value)] else [])
         == if s.latestStats.Some? then [Other(StatsPart(s.latestStats.value))] else []
  {
  }

  // ----- The fold as it runs -----

  class Folder {
    var parts: seq<Part>
    var toolById: map<string, nat>
    var textBuf: string
    var reasonBuf: string
    var reasonStep: Option<int>
    var reasonTiming: Timing
    var latestStats: Option<string>

    ghost function View(): State
      reads this
    {
      State(parts, toolById, textBuf, reasonBuf, reasonStep, reasonTiming, latestStats)
    }

    constructor ()
      ensures View() == START
    {
      parts, toolById, textBuf, reasonBuf := [], map[], "", "";
      reasonStep, reasonTiming, latestStats := None, NO_TIMING, None;
    }

    method FlushTextBuf()
      modifies this
      ensures View() == FlushText(old(View()))
    {
      if textBuf != "" {
        parts := parts + [TextPart(textBuf)];
        textBuf := "";
      }
    }

    method FlushReasonBuf()
      modifies this
      ensures View() == FlushReason(old(View()))
    {
      if reasonBuf != "" {
        parts := parts + [ReasoningPart(reasonBuf, reasonStep, reasonTiming)];
        if Given(reasonTiming.startedAt) && Given(reasonTiming.endedAt) {
          parts := parts + [ReasoningTimingPart(reasonStep, reasonTiming)];
        }
        reasonBuf, reasonStep, reasonTiming := "", None, NO_TIMING;
      }
    }

    /** The part of a call is created once and then updated where it stands. */
    method HandleTool(e: Tool)
      requires Indexed(View())
      modifies this
      ensures View() == ApplyTool(Flush(old(View())), e)
    {
      FlushReasonBuf();
      FlushTextBuf();
      ghost var s := View();
      if e.id !in toolById {
        toolById := toolById[e.id := |parts|];
        parts := parts + [ToolPart(Opened(e))];
      }
      var k := toolById[e.id];
      var p := parts[k].tool;
      if e.input.Some? {
        p := p.(input := e.input);
      }
      if Given(e.startedAt) {
        p := p.(startedAt := e.startedAt);
      }
      if e.output.Some? {
        p := p.(output := e.output, endedAt := e.endedAt, durationMs := e.durationMs);
      }
      parts := parts[k := ToolPart(p)];
      if e.output.Some? && Given(e.startedAt) && Given(e.endedAt) {
        parts := parts + [ToolTimingPart(e.id, e.step, Timing(e.startedAt, e.endedAt, e.durationMs))];
      }
      assert parts == ApplyTool(s, e).parts;
    }

    method Handle(e: Event)
      requires Indexed(View())
      modifies this
      ensures View() == Apply(old(View()), e)
    {
      match e
      case StreamStats(stats) => latestStats := Some(stats);
      case UsageUpdate(step, usage) => parts := parts + [UsagePart(step, usage)];
      case Reasoning(step, delta, timing) =>
        FlushTextBuf();
        reasonStep := Some(step);
        if Given(timing.startedAt) || Given(timing.endedAt) || timing.durationMs.Some? {
          reasonTiming := timing;
        }
        reasonBuf := reasonBuf + delta;
      case ReasoningTiming(step, timing) =>
        reasonTiming := timing;
        if reasonBuf == "" {
          parts := parts + [ReasoningTimingPart(Some(step), timing)];
        }
      case Text(delta) =>
        FlushReasonBuf();
        textBuf := textBuf + delta;
      case Notice(message) =>
        FlushReasonBuf();
        FlushTextBuf();
        parts := parts + [TextPart(message)];
      case Failure(message) =>
        FlushReasonBuf();
        FlushTextBuf();
        parts := parts + [TextPart("⚠️ " + message)];
      case Card(kind, step, data) =>
        FlushReasonBuf();
        FlushTextBuf();
        parts := parts + [CardPart(kind, step, data)];
      case ToolEvent(call) => HandleTool(call);
      case FinalEvent(step, output, reason) =>
        FlushReasonBuf();
        if textBuf != "" {
          FlushTextBuf();
        } else if output != "" {
          parts := parts + [TextPart(output)];
        }
        parts := parts + [FinalPart(step, output, reason)];
      case StepStart =>
    }
  }

  method FoldUiEventsToParts(events: seq<Event>) returns (parts: seq<Part>)
    ensures parts == Fold(events)
  {
    var folder := new Folder();
    for i := 0 to |events|
      invariant Indexed(folder.View()) && folder.View() == ApplyAll(START, events[..i]) && fresh(folder)
    {
      assert events[..i + 1][..i] == events[..i];
      folder.Handle(events[i]);
    }
    assert events[..|events|] == events;
    folder.FlushReasonBuf();
    folder.FlushTextBuf();
    parts := folder.parts;
    if folder.latestStats.Some? {
      parts := parts + [StatsPart(folder.latestStats.value)];
    }
  }
}
