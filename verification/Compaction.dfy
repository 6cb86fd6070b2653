/** The compaction primitives: masking (L1), the summary range (L3) and the sliding window (L2). */
module Compaction {
  import opened Wrappers
  import opened Messages
  import opened Lists
  import opened Text

  const MASK_MIN_CHARS: nat := 200
  const MASK_HEAD_CHARS: nat := 140
  const TOOL_ARGS_MASK_MIN_CHARS: nat := 1000
  const TOOL_ARGS_HEAD_CHARS: nat := 240

  // ----- L1: masking -----

  function Head(s: string, n: nat): (r: string)
    ensures |r| <= n
  {
    TrimEnd(CollapseSpaces(s[..Min(n, |s|)]))
  }

  function MaskPlaceholder(original: string): string {
    if |original| <= MASK_HEAD_CHARS then original
    else
      var head := Head(original, MASK_HEAD_CHARS);
      head + "\n…[+" + Digits(|original| - |head|) + " chars elided]"
  }

  /** What the placeholder leaves out of the original. */
  function Elided(original: string): int {
    |original| - |Head(original, MASK_HEAD_CHARS)|
  }

  /** Exactly which placeholders are shorter than the original, and which are longer: the marker takes 20
      characters where it elides 20. */
  lemma PlaceholderLength(original: string)
    ensures |MaskPlaceholder(original)| < |original| <==> |original| > MASK_HEAD_CHARS && Elided(original) > 20
    ensures |MaskPlaceholder(original)| > |original| <==> |original| > MASK_HEAD_CHARS && Elided(original) < 20
  {
    if |original| > MASK_HEAD_CHARS {
      DigitsAreFew(Elided(original));
      ShortNumbers(Elided(original));
    }
  }

  lemma ShortNumbers(n: nat)
    ensures n < 100 ==> |Digits(n)| == if n < 10 then 1 else 2
  {
  }

  /** A length for which every text gets shorter, and the only such lengths. */
  lemma LengthsThatShrink(n: nat)
    ensures (forall s: string :: |s| == n ==> |MaskPlaceholder(s)| < |s|) <==> n > MASK_HEAD_CHARS + 20
  {
    if n > MASK_HEAD_CHARS + 20 {
      forall s: string | |s| == n ensures |MaskPlaceholder(s)| < |s| {
        PlaceholderLength(s);
      }
    } else {
      var s := Unspaced(n);
      PlaceholderLength(s);
      assert !(|MaskPlaceholder(s)| < |s|);
    }
  }

  /** The lengths at which some text gets longer. */
  lemma LengthsThatGrow(n: nat)
    ensures (exists s: string :: |s| == n && |MaskPlaceholder(s)| > |s|) <==> MASK_HEAD_CHARS < n < MASK_HEAD_CHARS + 20
  {
    if MASK_HEAD_CHARS < n < MASK_HEAD_CHARS + 20 {
      var s := Unspaced(n);
      PlaceholderLength(s);
      assert |MaskPlaceholder(s)| > |s|;
    } else {
      forall s: string | |s| == n ensures |MaskPlaceholder(s)| <= |s| {
        PlaceholderLength(s);
      }
    }
  }

  /** A text without white space, of which nothing is lost before the head is cut. */
  lemma Unspaced(n: nat) returns (s: string)
    ensures |s| == n && |Head(s, MASK_HEAD_CHARS)| == Min(MASK_HEAD_CHARS, n)
  {
    s := seq(n, _ => 'x');
    UnspacedHead(s[..Min(MASK_HEAD_CHARS, n)]);
  }

  /** Every result large enough for L1 shrinks. */
  lemma PlaceholderShrinks(original: string)
    requires |original| >= MASK_MIN_CHARS
    ensures |MaskPlaceholder(original)| < |original|
  {
    LengthsThatShrink(|original|);
  }

  lemma {:induction false} UnspacedHead(s: string)
    requires forall c :: c in s ==> !IsSpace(c)
    ensures CollapseSpaces(s) == s && TrimEnd(s) == s
  {
    if s != "" {
      UnspacedHead(s[1..]);
    }
  }

  /** The characters that are no white space. */
  function Letters(s: string): string {
    if s == "" then "" else (if IsSpace(s[0]) then "" else [s[0]]) + Letters(s[1..])
  }

  lemma {:induction false} LettersOfTwo(a: string, b: string)
    ensures Letters(a + b) == Letters(a) + Letters(b)
  {
    if a == "" {
      assert a + b == b;
    } else {
      assert (a + b)[1..] == a[1..] + b;
      LettersOfTwo(a[1..], b);
    }
  }

  lemma {:induction false} NoLettersInSpace(s: string)
    requires forall i :: 0 <= i < |s| ==> IsSpace(s[i])
    ensures Letters(s) == ""
  {
    if s != "" {
      NoLettersInSpace(s[1..]);
    }
  }

  lemma {:induction false} CollapsingKeepsLetters(s: string)
    ensures Letters(CollapseSpaces(s)) == Letters(s)
  {
    if s != "" {
      CollapsingKeepsLetters(s[1..]);
      if !IsSpace(s[0]) {
        LettersOfTwo([s[0]], CollapseSpaces(s[1..]));
      } else if |s| == 1 || !IsSpace(s[1]) {
        LettersOfTwo(" ", CollapseSpaces(s[1..]));
      }
    }
  }

  /** The head keeps every character of its stretch of the text that is no white space. */
  lemma HeadKeepsLetters(s: string, n: nat)
    ensures Letters(Head(s, n)) == Letters(s[..Min(n, |s|)])
  {
    var whole := CollapseSpaces(s[..Min(n, |s|)]);
    CollapsingKeepsLetters(s[..Min(n, |s|)]);
    assert whole == Head(s, n) + whole[|Head(s, n)|..];
    LettersOfTwo(Head(s, n), whole[|Head(s, n)|..]);
    NoLettersInSpace(whole[|Head(s, n)|..]);
  }

  /** A placeholder is the whole text, or begins with the first 140 characters but for white space and ends
      in the number of the characters that it leaves out. */
  lemma PlaceholderTells(original: string)
    ensures |original| <= MASK_HEAD_CHARS ==> MaskPlaceholder(original) == original
    ensures |original| > MASK_HEAD_CHARS ==> exists head: string ::
      && |head| <= MASK_HEAD_CHARS && Letters(head) == Letters(original[..MASK_HEAD_CHARS])
      && MaskPlaceholder(original) == head + "\n…[+" + Digits(|original| - |head|) + " chars elided]"
  {
    HeadKeepsLetters(original, MASK_HEAD_CHARS);
  }

  function MaskedArguments(call: ToolCall): string {
    "{\"context_elided\":true,\"not_executable\":true,\"tool_name\":\"" + call.name
    + "\",\"original_chars\":" + Digits(|call.arguments|)
    + ",\"non_executable_preview\":\"" + Head(call.arguments, TOOL_ARGS_HEAD_CHARS) + "\"}"
  }

  function MaskCall(call: ToolCall): ToolCall {
    if |call.arguments| < TOOL_ARGS_MASK_MIN_CHARS then call
    else call.(arguments := MaskedArguments(call))
  }

  function MaskToolCallArguments(calls: seq<ToolCall>): (r: seq<ToolCall>)
    ensures SameCallIds(calls, r)
  {
    Map(MaskCall, calls)
  }

  predicate HasLargeArguments(calls: seq<ToolCall>) {
    exists c :: c in calls && |c.arguments| >= TOOL_ARGS_MASK_MIN_CHARS
  }

  function MaskResult(m: Message): (r: Message)
    ensures SameShape(m, r)
  {
    m.(content := Some(MaskPlaceholder(m.Text())), collapsed := Masked)
  }

  /** L1 on one tool result, `aged` when it lies in front of the recent messages. */
  function MaskOldResult(m: Message, aged: bool): (r: Message)
    ensures SameShape(m, r)
  {
    if aged && m.role == Tool && m.collapsed == Intact && |m.Text()| >= MASK_MIN_CHARS then MaskResult(m) else m
  }

  /** L1 on one assistant turn: large arguments and old replay state go, call ids and names stay. */
  function MaskOldCalls(m: Message, aged: bool, force: set<string>): (r: Message)
    ensures SameShape(m, r)
  {
    var wanted := aged || exists c :: c in m.toolCalls && c.name in force;
    var dropState := aged && m.providerState;
    if m.role != Assistant || m.collapsed != Intact || m.toolCalls == [] || !wanted then m
    else if !HasLargeArguments(m.toolCalls) && !dropState then m
    else m.(toolCalls := MaskToolCallArguments(m.toolCalls),
            providerState := m.providerState && !dropState,
            collapsed := Masked)
  }

  /** L1 on one message. */
  function MaskMessage(m: Message, aged: bool, force: set<string>): (r: Message)
    ensures SameShape(m, r)
    ensures r != m ==> m.collapsed == Intact && r.collapsed == Masked && (m.role == Tool || m.role == Assistant)
  {
    MaskOldCalls(MaskOldResult(m, aged), aged, force)
  }

  /** What L1 does to one message: aged results of 200 characters or more become shorter placeholders; of
      aged turns and turns with a forced tool, arguments of 1000 characters or more are replaced, and the
      replay state of aged ones goes. Everything else stays as it is. */
  lemma MaskedExactly(m: Message, aged: bool, force: set<string>)
    ensures var r := MaskMessage(m, aged, force);
      var large := m.role == Tool && m.collapsed == Intact && aged && |m.Text()| >= MASK_MIN_CHARS;
      var wanted := m.role == Assistant && m.collapsed == Intact && m.toolCalls != []
                    && (aged || exists c :: c in m.toolCalls && c.name in force);
      && SameShape(m, r)
      && (large ==> r == m.(content := Some(MaskPlaceholder(m.Text())), collapsed := Masked) && |r.Text()| < |m.Text()|)
      && (wanted && (HasLargeArguments(m.toolCalls) || (aged && m.providerState)) ==>
            && r == m.(toolCalls := r.toolCalls, providerState := m.providerState && !aged, collapsed := Masked)
            && forall k :: 0 <= k < |m.toolCalls| ==>
                 r.toolCalls[k].arguments == if |m.toolCalls[k].arguments| >= TOOL_ARGS_MASK_MIN_CHARS
                                             then MaskedArguments(m.toolCalls[k]) else m.toolCalls[k].arguments)
      && (r != m <==> large || (wanted && (HasLargeArguments(m.toolCalls) || (aged && m.providerState))))
  {
    if m.role == Tool && |m.Text()| >= MASK_MIN_CHARS {
      PlaceholderShrinks(m.Text());
    }
  }

  // ----- The protected front -----

  predicate LeadsSystem(m: Message) {
    m.role == System && m.collapsed != Summarized
  }

  /** How many messages in front are system messages other than summaries. */
  function LeadingSystem(ms: seq<Message>): (n: nat)
    ensures n <= |ms|
    ensures forall i :: 0 <= i < n ==> LeadsSystem(ms[i])
    ensures n < |ms| ==> !LeadsSystem(ms[n])
  {
    LeadingSystemFrom(ms, 0)
  }

  function LeadingSystemFrom(ms: seq<Message>, i: nat): (n: nat)
    requires i <= |ms| && forall k :: 0 <= k < i ==> LeadsSystem(ms[k])
    ensures i <= n <= |ms|
    ensures forall k :: 0 <= k < n ==> LeadsSystem(ms[k])
    ensures n < |ms| ==> !LeadsSystem(ms[n])
    decreases |ms| - i
  {
    if i < |ms| && LeadsSystem(ms[i]) then LeadingSystemFrom(ms, i + 1) else i
  }

  method CountLeadingSystem(ms: seq<Message>) returns (i: nat)
    ensures i == LeadingSystem(ms)
  {
    i := 0;
    while i < |ms| && LeadsSystem(ms[i])
      invariant i <= |ms| && forall k :: 0 <= k < i ==> LeadsSystem(ms[k])
    {
      i := i + 1;
    }
  }

  /** Position of the first user message, or -1. Leading system messages are never users. */
  function FirstUser(ms: seq<Message>): (r: int)
    ensures -1 <= r < |ms|
    ensures r >= 0 ==> ms[r].role == User && LeadingSystem(ms) <= r
    ensures forall i :: 0 <= i < (if r >= 0 then r else |ms|) ==> ms[i].role != User
  {
    FirstUserFrom(ms, 0)
  }

  function FirstUserFrom(ms: seq<Message>, i: nat): (r: int)
    requires i <= |ms| && forall k :: 0 <= k < i ==> ms[k].role != User
    ensures -1 <= r < |ms|
    ensures r >= 0 ==> ms[r].role == User
    ensures forall k :: 0 <= k < (if r >= 0 then r else |ms|) ==> ms[k].role != User
    decreases |ms| - i
  {
    if i == |ms| then -1 else if ms[i].role == User then i else FirstUserFrom(ms, i + 1)
  }

  /** The leading system messages and the first user message are never summarised. */
  function ProtectedEnd(ms: seq<Message>): (n: nat)
    ensures n <= |ms|
  {
    if FirstUser(ms) >= 0 then FirstUser(ms) + 1 else LeadingSystem(ms)
  }

  // ----- L3: a range that splits no tool round -----

  /** No result at or after `end` answers a call issued in `[front, end)`. */
  ghost predicate SplitsNothing(ms: seq<Message>, front: nat, end: nat)
    requires front <= end <= |ms|
  {
    forall i, j, id :: front <= i < end <= j < |ms| && Issues(ms[i], id) ==> !Answers(ms[j], id)
  }

  /** The greatest end in `[front, end]` that splits nothing. */
  ghost function SafeEnd(ms: seq<Message>, front: nat, end: nat): (r: nat)
    requires front <= end <= |ms|
    ensures front <= r <= end
    ensures SplitsNothing(ms, front, r)
    ensures forall e :: r < e <= end ==> !SplitsNothing(ms, front, e)
  {
    if SplitsNothing(ms, front, end) then end else SafeEnd(ms, front, end - 1)
  }

  /** Being the greatest such end fixes the value: there is only one. */
  lemma SafeEndUnique(ms: seq<Message>, front: nat, end: nat, r: nat)
    requires front <= r <= end <= |ms|
    requires SplitsNothing(ms, front, r)
    requires forall e :: r < e <= end ==> !SplitsNothing(ms, front, e)
    ensures r == SafeEnd(ms, front, end)
  {
    var s := SafeEnd(ms, front, end);
    assert !(r < s) && !(s < r);
  }

  method SummaryEndBeforeSplitToolRound(ms: seq<Message>, front: nat, initialEnd: nat) returns (end: nat)
    requires front <= initialEnd <= |ms|
    ensures end == SafeEnd(ms, front, initialEnd)
  {
    end := initialEnd;
    while end > front
      invariant front <= end <= initialEnd
      invariant forall e :: end < e <= initialEnd ==> !SplitsNothing(ms, front, e)
      decreases end
    {
      var parent: map<string, nat> := map[];
      for i := front to end
        invariant forall id :: id in parent ==> front <= parent[id] < i && Issues(ms[parent[id]], id)
        invariant forall k, id :: front <= k < i && Issues(ms[k], id) ==> id in parent && k <= parent[id]
      {
        if ms[i].role == Assistant {
          parent := RecordCalls(parent, ms[i].toolCalls, i);
        }
      }
      var nextEnd := end;
      for j := end to |ms|
        invariant front <= nextEnd <= end
        invariant forall e :: nextEnd < e <= end ==> !SplitsNothing(ms, front, e) || nextEnd == end
        invariant forall k, id :: end <= k < j && Answers(ms[k], id) && id in parent ==> nextEnd < end
      {
        var m := ms[j];
        if m.role == Tool && m.toolCallId.Some? && m.toolCallId.value != "" && m.toolCallId.value in parent {
          var p := parent[m.toolCallId.value];
          if p < nextEnd {
            nextEnd := p;
            forall e | nextEnd < e <= end ensures !SplitsNothing(ms, front, e) {
              assert Issues(ms[p], m.toolCallId.value) && Answers(ms[j], m.toolCallId.value);
            }
          }
        }
      }
      if nextEnd == end {
        forall i, j, id | front <= i < end <= j < |ms| && Issues(ms[i], id) ensures !Answers(ms[j], id) {
          assert id in parent;
        }
        break;
      }
      end := nextEnd;
    }
    SafeEndUnique(ms, front, initialEnd, end);
  }

  /** Later assistants overwrite earlier ones that issued the same id. */
  function RecordCalls(parent: map<string, nat>, calls: seq<ToolCall>, i: nat): (r: map<string, nat>)
    ensures forall id :: id in r <==> id in parent || HasCall(calls, id)
    ensures forall id :: id in r ==> r[id] == if HasCall(calls, id) then i else parent[id]
  {
    if calls == [] then parent
    else
      var n := |calls| - 1;
      assert forall id :: HasCall(calls, id) <==> HasCall(calls[..n], id) || calls[n].id == id by {
        assert calls == calls[..n] + [calls[n]];
      }
      RecordCalls(parent, calls[..n], i)[calls[n].id := i]
  }

  datatype Candidate = Candidate(start: nat, end: nat)

  /** Trailing results, then trailing assistant turns with calls, stay outside the summary. */
  function TrimTools(ms: seq<Message>, front: nat, end: nat): (r: nat)
    requires front <= end <= |ms|
    ensures front <= r <= end
    ensures r > front ==> ms[r - 1].role != Tool
    ensures forall k :: r <= k < end ==> ms[k].role == Tool
  {
    if end > front && ms[end - 1].role == Tool then TrimTools(ms, front, end - 1) else end
  }

  function TrimCallers(ms: seq<Message>, front: nat, end: nat): (r: nat)
    requires front <= end <= |ms|
    ensures front <= r <= end
    ensures r > front ==> !CallsTools(ms[r - 1])
    ensures forall k :: r <= k < end ==> CallsTools(ms[k])
  {
    if end > front && CallsTools(ms[end - 1]) then TrimCallers(ms, front, end - 1) else end
  }

  function Trimmed(ms: seq<Message>, front: nat, end: nat): (r: nat)
    requires front <= end <= |ms|
    ensures front <= r <= end
  {
    TrimCallers(ms, front, TrimTools(ms, front, end))
  }

  /** Where the search for a safe end stops. */
  ghost function SearchEnd(ms: seq<Message>, keepRecent: int): (r: nat)
    ensures ProtectedEnd(ms) <= r <= |ms|
  {
    SafeEnd(ms, ProtectedEnd(ms), Max(ProtectedEnd(ms), |ms| - Max(0, keepRecent)))
  }

  predicate HasTurn(ms: seq<Message>, front: nat, end: nat)
    requires front <= end <= |ms|
  {
    exists k :: front <= k < end && ms[k].role != System
  }

  ghost function SummaryRange(ms: seq<Message>, keepRecent: int): (r: Option<Candidate>)
    ensures r.Some? ==> r.value.start == ProtectedEnd(ms) < r.value.end <= |ms|
  {
    var front := ProtectedEnd(ms);
    var cut := Trimmed(ms, front, SearchEnd(ms, keepRecent));
    if cut > front && HasTurn(ms, front, cut) then Some(Candidate(front, cut)) else None
  }

  method SummaryCandidate(ms: seq<Message>, keepRecent: int) returns (r: Option<Candidate>)
    ensures r == SummaryRange(ms, keepRecent)
  {
    hide ProtectedEnd, SafeEnd, HasTurn;
    var front := ProtectedEnd(ms);
    var end := SummaryEndBeforeSplitToolRound(ms, front, Max(front, |ms| - Max(0, keepRecent)));
    ghost var safe := end;
    while end > front && ms[end - 1].role == Tool
      invariant front <= end <= safe
      invariant TrimTools(ms, front, end) == TrimTools(ms, front, safe)
    {
      end := end - 1;
    }
    ghost var trimmed := end;
    while end > front && CallsTools(ms[end - 1])
      invariant front <= end <= trimmed
      invariant TrimCallers(ms, front, end) == TrimCallers(ms, front, trimmed)
    {
      end := end - 1;
    }
    if end > front && HasTurn(ms, front, end) {
      return Some(Candidate(front, end));
    }
    return None;
  }

  /** In round form the trims keep the guarantee of the search: what follows the range starts with a
      message that is not a result, so no pair is split on either side. */
  lemma SummaryRangeSplitsNothing(ms: seq<Message>, keepRecent: int)
    requires RoundForm(ms)
    requires SummaryRange(ms, keepRecent).Some?
    ensures var c := SummaryRange(ms, keepRecent).value;
      && SplitsNothing(ms, c.start, c.end)
      && (c.end < |ms| ==> ms[c.end].role != Tool)
  {
    var front := ProtectedEnd(ms);
    var bare := TrimTools(ms, front, SearchEnd(ms, keepRecent));
    var cut := TrimCallers(ms, front, bare);
    hide SearchEnd, TrimTools, TrimCallers, ProtectedEnd;
    if cut < |ms| {
      ResultFollows(ms, cut);
      assert cut < bare ==> CallsTools(ms[cut]);
    }
    CutInFrontOfNonResult(ms, front, cut);
  }

  /** In round form a result stands right behind a result or an assistant turn with calls. */
  lemma ResultFollows(ms: seq<Message>, j: nat)
    requires RoundForm(ms) && j < |ms|
    ensures ms[j].role == Tool ==> j > 0 && (ms[j - 1].role == Tool || CallsTools(ms[j - 1]))
  {
    if ms[j].role == Tool {
      var i: nat :| Owns(ms, i, j);
      assert ms[i].toolCalls != [];
    }
  }

  lemma CutInFrontOfNonResult(ms: seq<Message>, front: nat, cut: nat)
    requires RoundForm(ms) && front <= cut <= |ms|
    requires cut < |ms| ==> ms[cut].role != Tool
    ensures SplitsNothing(ms, front, cut)
  {
  }

  ghost predicate SplitsAPair(ms: seq<Message>, keepRecent: int) {
    var r := SummaryRange(ms, keepRecent);
    r.Some? && !SplitsNothing(ms, r.value.start, r.value.end)
  }

  /** At the cut `e`, the run of results that ends there answers a call from further back: between the call
      and the result there is a message that is no result, and at or before it one that calls no tools. */
  ghost predicate AnswersFromBehind(ms: seq<Message>, front: nat, e: nat)
    requires front <= e <= |ms|
  {
    exists i, q, p, j, id :: front <= i < q <= p < j < e && FarAnswer(ms, e, i, q, p, j, id)
  }

  ghost predicate FarAnswer(ms: seq<Message>, e: nat, i: nat, q: nat, p: nat, j: nat, id: string)
    requires i < q <= p < j < e <= |ms|
  {
    && Issues(ms[i], id) && Answers(ms[j], id)
    && !CallsTools(ms[q]) && ms[p].role != Tool
    && forall k :: j <= k < e ==> ms[k].role == Tool
  }

  lemma TrimmedRangeSplits(ms: seq<Message>, front: nat, e: nat)
    requires front <= e <= |ms| && SplitsNothing(ms, front, e)
    ensures !SplitsNothing(ms, front, Trimmed(ms, front, e)) <==> AnswersFromBehind(ms, front, e)
  {
    hide Trimmed, SplitsNothing, AnswersFromBehind;
    SplitIsFar(ms, front, e);
    FarIsSplit(ms, front, e);
  }

  lemma SplitIsFar(ms: seq<Message>, front: nat, e: nat)
    requires front <= e <= |ms| && SplitsNothing(ms, front, e)
    ensures SplitsNothing(ms, front, Trimmed(ms, front, e)) || AnswersFromBehind(ms, front, e)
  {
    hide TrimTools, TrimCallers;
    var bare := TrimTools(ms, front, e);
    var cut := TrimCallers(ms, front, bare);
    if !SplitsNothing(ms, front, cut) {
      var i, j, id :| front <= i < cut <= j < |ms| && Issues(ms[i], id) && Answers(ms[j], id);
      assert FarAnswer(ms, e, i, cut - 1, bare - 1, j, id);
    }
  }

  lemma FarIsSplit(ms: seq<Message>, front: nat, e: nat)
    requires front <= e <= |ms|
    ensures AnswersFromBehind(ms, front, e) ==> !SplitsNothing(ms, front, Trimmed(ms, front, e))
  {
    hide TrimTools, TrimCallers;
    if AnswersFromBehind(ms, front, e) {
      var i, q, p, j, id :| front <= i < q <= p < j < e && FarAnswer(ms, e, i, q, p, j, id);
      var bare := TrimTools(ms, front, e);
      var cut := TrimCallers(ms, front, bare);
      assert p < bare <= j && q < cut;
      assert front <= i < cut <= j < |ms| && Issues(ms[i], id) && Answers(ms[j], id);
    }
  }

  /** For any list, exactly when the trims make the range split a pair: when the run of results at the safe
      end holds an answer to a call from further back. */
  lemma TrimsSplitIff(ms: seq<Message>, keepRecent: int)
    ensures SplitsAPair(ms, keepRecent) <==> AnswersFromBehind(ms, ProtectedEnd(ms), SearchEnd(ms, keepRecent))
  {
    RangeSplits(ms, keepRecent);
    SearchEndIsSafe(ms, keepRecent);
    hide ProtectedEnd, SearchEnd, Trimmed, SplitsNothing, AnswersFromBehind, SplitsAPair;
    TrimmedRangeSplits(ms, ProtectedEnd(ms), SearchEnd(ms, keepRecent));
  }

  lemma RangeSplits(ms: seq<Message>, keepRecent: int)
    ensures var front := ProtectedEnd(ms);
      SplitsAPair(ms, keepRecent) <==> !SplitsNothing(ms, front, Trimmed(ms, front, SearchEnd(ms, keepRecent)))
  {
    hide ProtectedEnd, SearchEnd, Trimmed, SplitsNothing, HasTurn;
    SplitHasATurn(ms, ProtectedEnd(ms), Trimmed(ms, ProtectedEnd(ms), SearchEnd(ms, keepRecent)));
  }

  lemma SearchEndIsSafe(ms: seq<Message>, keepRecent: int)
    ensures SplitsNothing(ms, ProtectedEnd(ms), SearchEnd(ms, keepRecent))
  {
    hide SafeEnd, SplitsNothing, ProtectedEnd;
  }

  lemma SearchEndAt(ms: seq<Message>, e: nat)
    requires ProtectedEnd(ms) <= e <= |ms| && SplitsNothing(ms, ProtectedEnd(ms), e)
    ensures SearchEnd(ms, |ms| - e) == e
  {
    hide SafeEnd, SplitsNothing, ProtectedEnd;
    SafeEndUnique(ms, ProtectedEnd(ms), e, e);
  }

  lemma SplitHasATurn(ms: seq<Message>, front: nat, end: nat)
    requires front <= end <= |ms|
    ensures SplitsNothing(ms, front, end) || (front < end && HasTurn(ms, front, end))
  {
    if !SplitsNothing(ms, front, end) {
      var i, j, id :| front <= i < end <= j < |ms| && Issues(ms[i], id) && Answers(ms[j], id);
      assert ms[i].role != System;
    }
  }

  /** A list for which some setting makes the range split a pair is one with such a run of results at a cut
      that the search accepts. */
  lemma SplitsForSomeSetting(ms: seq<Message>)
    ensures (exists keepRecent :: SplitsAPair(ms, keepRecent)) <==>
      exists e :: ProtectedEnd(ms) <= e <= |ms| && SplitsNothing(ms, ProtectedEnd(ms), e)
                  && AnswersFromBehind(ms, ProtectedEnd(ms), e)
  {
    hide ProtectedEnd, SearchEnd, SplitsAPair, SplitsNothing, AnswersFromBehind;
    var front := ProtectedEnd(ms);
    if keepRecent :| SplitsAPair(ms, keepRecent) {
      SearchEndIsSafe(ms, keepRecent);
      TrimsSplitIff(ms, keepRecent);
    }
    if e :| front <= e <= |ms| && SplitsNothing(ms, front, e) && AnswersFromBehind(ms, front, e) {
      SearchEndAt(ms, e);
      TrimsSplitIff(ms, |ms| - e);
      assert SplitsAPair(ms, |ms| - e);
    }
  }

  /** The condition can be met, by a list outside round form: the trims leave the result of a summarised
      call. */
  lemma TrimsNeedRoundForm()
    ensures exists ms: seq<Message>, keepRecent :: SplitsAPair(ms, keepRecent)
  {
    var user := Message(0, User, Some("go"), [], None, Intact, false, []);
    var caller := Message(1, Assistant, None, [ToolCall("x", "t", "")], None, Intact, false, []);
    var result := Message(3, Tool, Some(""), [], Some("x"), Intact, false, []);
    var ms := [user, caller, user.(tag := 2), result, user.(tag := 4)];
    assert LeadingSystem(ms) == 0 && FirstUser(ms) == 0;
    assert SplitsNothing(ms, 1, 4);
    assert TrimTools(ms, 1, 4) == 3 && TrimCallers(ms, 1, 3) == 3;
    assert ms[1].role != System;
    assert SummaryRange(ms, 1) == Some(Candidate(1, 3));
    assert caller.toolCalls[0].id == "x";
    assert Issues(ms[1], "x") && Answers(ms[3], "x");
    assert SplitsAPair(ms, 1);
  }

  // ----- L2: the sliding window -----

  /** Position of the last summary, or -1. */
  function LastSummary(ms: seq<Message>): (r: int)
    ensures -1 <= r < |ms|
    ensures r >= 0 ==> ms[r].role == System && ms[r].collapsed == Summarized
    ensures forall k :: r < k < |ms| ==> !(ms[k].role == System && ms[k].collapsed == Summarized)
  {
    if ms == [] then -1
    else if ms[|ms| - 1].role == System && ms[|ms| - 1].collapsed == Summarized then |ms| - 1
    else LastSummary(ms[..|ms| - 1])
  }

  /** The first position at or after `i` that does not hold a result. */
  function SkipTools(ms: seq<Message>, i: nat): (r: nat)
    ensures i <= r && (i <= |ms| ==> r <= |ms|)
    ensures r < |ms| ==> ms[r].role != Tool
    ensures forall k :: i <= k < r && k < |ms| ==> ms[k].role == Tool
    decreases |ms| - i
  {
    if i < |ms| && ms[i].role == Tool then SkipTools(ms, i + 1) else i
  }

  function WindowStart(ms: seq<Message>, keepRecent: int): nat {
    SkipTools(ms, Max(LeadingSystem(ms), |ms| - keepRecent))
  }

  /** Without a summary, a window that already reaches the first user message cuts nothing; neither
      does one that would leave no tail. */
  predicate WindowCuts(ms: seq<Message>, keepRecent: int) {
    var start := WindowStart(ms, keepRecent);
    !(LastSummary(ms) < 0 && start <= FirstUser(ms) + 1) && start < |ms|
  }

  /** The positions the window keeps: the leading system messages, the first user message, the last
      summary, and everything from the window start on. */
  function WindowKeeps(ms: seq<Message>, keepRecent: int): set<nat> {
    set i: nat | i < |ms| && KeptAt(ms, keepRecent, i)
  }

  predicate KeptAt(ms: seq<Message>, keepRecent: int, i: nat) {
    || !WindowCuts(ms, keepRecent)
    || i < LeadingSystem(ms)
    || i == FirstUser(ms)
    || i == LastSummary(ms)
    || WindowStart(ms, keepRecent) <= i
  }

  method SlidingWindow(ms: seq<Message>, keepRecent: int) returns (out: seq<Message>, dropped: nat)
    requires DistinctTags(ms)
    ensures out == Pick(ms, WindowKeeps(ms, keepRecent))
    ensures dropped == |ms| - |out|
  {
    var keeps := WindowKeeps(ms, keepRecent);
    var sysEnd := CountLeadingSystem(ms);
    var summary := -1;
    for i := sysEnd to |ms|
      invariant summary == -1 || (sysEnd <= summary < i && ms[summary].role == System && ms[summary].collapsed == Summarized)
      invariant forall k :: sysEnd <= k < i && summary < k ==> !(ms[k].role == System && ms[k].collapsed == Summarized)
    {
      if ms[i].role == System && ms[i].collapsed == Summarized {
        summary := i;
      }
    }
    assert summary == LastSummary(ms);
    var start: nat := Max(sysEnd, |ms| - keepRecent);
    while start < |ms| && ms[start].role == Tool
      invariant SkipTools(ms, start) == WindowStart(ms, keepRecent)
      decreases |ms| - start
    {
      start := start + 1;
    }
    if (summary < 0 && start <= FirstUser(ms) + 1) || start >= |ms| {
      PickAll(ms, keeps);
      return ms, 0;
    }
    var kept := set m | m in ms[..sysEnd] + At(ms, FirstUser(ms)) + At(ms, summary) + ms[start..];
    KeptByIdentity(ms, keepRecent, kept);
    out := FilterIn(ms, kept);
    dropped := |ms| - |out|;
    if dropped == 0 {
      PickOfFullLength(ms, keeps);
      out := ms;
    }
  }

  function At(ms: seq<Message>, i: int): seq<Message>
    requires i < |ms|
  {
    if i >= 0 then [ms[i]] else []
  }

  lemma KeptByIdentity(ms: seq<Message>, keepRecent: int, kept: set<Message>)
    requires DistinctTags(ms) && WindowCuts(ms, keepRecent)
    requires kept == set m | m in ms[..LeadingSystem(ms)] + At(ms, FirstUser(ms)) + At(ms, LastSummary(ms))
                                  + ms[WindowStart(ms, keepRecent)..]
    ensures FilterIn(ms, kept) == Pick(ms, WindowKeeps(ms, keepRecent))
  {
    forall i: nat | i < |ms| ensures ms[i] in kept <==> i in WindowKeeps(ms, keepRecent) {
      hide DistinctTags, LeadingSystem, WindowStart, FirstUser, LastSummary, At, WindowCuts;
      IdentityIsPosition(ms, 0, LeadingSystem(ms), i);
      IdentityIsPosition(ms, WindowStart(ms, keepRecent), |ms|, i);
      AtIsPosition(ms, FirstUser(ms), i);
      AtIsPosition(ms, LastSummary(ms), i);
    }
    FilterIsPick(ms, kept, WindowKeeps(ms, keepRecent));
  }

  lemma AtIsPosition(ms: seq<Message>, k: int, i: nat)
    requires DistinctTags(ms) && -1 <= k < |ms| && i < |ms|
    ensures ms[i] in At(ms, k) <==> i == k
  {
  }

  lemma IdentityIsPosition(ms: seq<Message>, lo: nat, hi: nat, i: nat)
    requires DistinctTags(ms) && lo <= hi <= |ms| && i < |ms|
    ensures ms[i] in ms[lo..hi] <==> lo <= i < hi
  {
    if ms[i] in ms[lo..hi] {
      var k :| 0 <= k < hi - lo && ms[lo..hi][k] == ms[i];
      assert ms[lo + k].tag == ms[i].tag;
    }
    if lo <= i < hi {
      assert ms[lo..hi][i - lo] == ms[i];
    }
  }

  /** A list of system and user messages in front of a round-form suffix is in round form. */
  lemma QuietFrontRoundForm(front: seq<Message>, tail: seq<Message>)
    requires RoundForm(tail)
    requires forall m :: m in front ==> m.role == System || m.role == User
    ensures RoundForm(front + tail)
  {
    var all := front + tail;
    forall i, j, id | 0 <= i < |all| && 0 <= j < |all| && Issues(all[i], id) && Issues(all[j], id)
      ensures i == j
    {
      assert i >= |front| && j >= |front|;
      assert Issues(tail[i - |front|], id) && Issues(tail[j - |front|], id);
    }
    assert RoundForm(front) by {
      assert forall j :: 0 <= j < |front| ==> front[j] in front;
    }
    JoinRoundForm(front, tail);
  }

  /** What the window keeps in front of its start is quiet: system and user messages only. */
  lemma WindowFrontIsQuiet(ms: seq<Message>, keepRecent: int, m: Message)
    requires WindowCuts(ms, keepRecent)
    requires m in Pick(ms[..WindowStart(ms, keepRecent)], WindowKeeps(ms, keepRecent))
    ensures m.role == System || m.role == User
  {
    var start := WindowStart(ms, keepRecent);
    PickMembers(ms[..start], WindowKeeps(ms, keepRecent), m);
    var i: nat :| i < start && i in WindowKeeps(ms, keepRecent) && ms[..start][i] == m;
    assert KeptAt(ms, keepRecent, i) && ms[i] == m;
  }

  /** The window never breaks a tool round. */
  lemma WindowKeepsRoundForm(ms: seq<Message>, keepRecent: int)
    requires RoundForm(ms)
    ensures RoundForm(Pick(ms, WindowKeeps(ms, keepRecent)))
  {
    var keeps := WindowKeeps(ms, keepRecent);
    if WindowCuts(ms, keepRecent) {
      var start := WindowStart(ms, keepRecent);
      PickSplit(ms, keeps, start);
      SuffixRoundForm(ms, start);
      forall m | m in Pick(ms[..start], keeps) ensures m.role == System || m.role == User {
        WindowFrontIsQuiet(ms, keepRecent, m);
      }
      QuietFrontRoundForm(Pick(ms[..start], keeps), ms[start..]);
    } else {
      PickAll(ms, keeps);
    }
  }
}
