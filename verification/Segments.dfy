/** Splitting one complete tool round into summary requests, and folding the answers back together. */
module Segments {
  import opened Wrappers
  import opened Messages
  import opened Lists
  import opened Text

  const MIN_PART_CHARS: nat := 256
  const LONG_ARGUMENT_CHARS: nat := 300

  function Concat(parts: seq<string>): string {
    if parts == [] then "" else Concat(parts[..|parts| - 1]) + parts[|parts| - 1]
  }

  function Flatten<T>(groups: seq<seq<T>>): seq<T> {
    if groups == [] then [] else Flatten(groups[..|groups| - 1]) + groups[|groups| - 1]
  }

  // ----- Pieces of one text -----

  function CeilDiv(n: nat, d: nat): (r: nat)
    requires d > 0
    ensures r * d >= n && (r > 0 ==> (r - 1) * d < n)
  {
    (n + d - 1) / d
  }

  /** `text.slice(i * size, (i + 1) * size)`: both ends are clamped to the text. */
  function Piece(text: string, size: nat, i: nat): (r: string)
    ensures |r| <= size
  {
    text[Min(i * size, |text|)..Min((i + 1) * size, |text|)]
  }

  function Pieces(text: string, size: nat, count: nat): (r: seq<string>)
    ensures |r| == count
    ensures forall i :: 0 <= i < count ==> r[i] == Piece(text, size, i)
  {
    seq(count, i requires 0 <= i < count => Piece(text, size, i))
  }

  lemma OneMore(n: nat, size: nat)
    ensures (n + 1) * size == n * size + size
  {
  }

  lemma SlicesMeet(text: string, done: nat, size: nat)
    ensures text[..Min(done, |text|)] + text[Min(done, |text|)..Min(done + size, |text|)] == text[..Min(done + size, |text|)]
  {
  }

  lemma {:induction false} PiecesConcat(text: string, size: nat, count: nat)
    ensures Concat(Pieces(text, size, count)) == text[..Min(count * size, |text|)]
  {
    if count > 0 {
      PiecesConcat(text, size, count - 1);
      assert Pieces(text, size, count)[..count - 1] == Pieces(text, size, count - 1);
      OneMore(count - 1, size);
      SlicesMeet(text, (count - 1) * size, size);
    }
  }

  /** Cutting into enough pieces loses nothing. */
  lemma PiecesLoseNothing(text: string, size: nat, count: nat)
    requires count * size >= |text|
    ensures Concat(Pieces(text, size, count)) == text
  {
    PiecesConcat(text, size, count);
    assert text[..|text|] == text;
  }

  // ----- Sections: what has to be summarised, in order -----

  /** One long argument or one result, with the label repeated on each of its pieces. */
  datatype Section = Section(title: string, body: string, isResult: bool)

  function PartSize(title: string, maxChars: int): (r: nat)
    ensures r >= MIN_PART_CHARS
  {
    Max(MIN_PART_CHARS, maxChars - |title| - 100)
  }

  function PartCount(s: Section, maxChars: int): (r: nat)
    ensures s.isResult ==> r >= 1
    ensures r * PartSize(s.title, maxChars) >= |s.body|
  {
    var needed := CeilDiv(|s.body|, PartSize(s.title, maxChars));
    if s.isResult then Max(1, needed) else needed
  }

  function PartNumber(isResult: bool, i: nat, count: nat): string {
    "\n摘要输入第 " + Digits(i + 1) + "/" + Digits(count)
    + (if isResult then " 段（此处分段不是原始结果截断）：\n" else " 段（分段不是参数截断）：\n")
  }

  function Block(s: Section, maxChars: int, i: nat): (r: string)
    ensures r != ""
  {
    s.title + PartNumber(s.isResult, i, PartCount(s, maxChars)) + Piece(s.body, PartSize(s.title, maxChars), i)
  }

  function SectionBlocks(s: Section, maxChars: int): (r: seq<string>)
    ensures |r| == PartCount(s, maxChars)
    ensures forall b :: b in r ==> b != ""
  {
    seq(PartCount(s, maxChars), i requires 0 <= i < PartCount(s, maxChars) => Block(s, maxChars, i))
  }

  function Blocks(sections: seq<Section>, maxChars: int): (r: seq<string>)
    ensures forall b :: b in r ==> b != ""
  {
    if sections == [] then []
    else Blocks(sections[..|sections| - 1], maxChars) + SectionBlocks(sections[|sections| - 1], maxChars)
  }

  /** The pieces of a section, taken out of their blocks, are its body. */
  lemma SectionLosesNothing(s: Section, maxChars: int)
    ensures var pieces := Pieces(s.body, PartSize(s.title, maxChars), PartCount(s, maxChars));
      && Concat(pieces) == s.body
      && forall i :: 0 <= i < |pieces| ==>
           SectionBlocks(s, maxChars)[i] == s.title + PartNumber(s.isResult, i, |pieces|) + pieces[i]
  {
    PiecesLoseNothing(s.body, PartSize(s.title, maxChars), PartCount(s, maxChars));
  }

  /** A block respects the request bound when the label leaves room for a least piece and the part
      number fits the 100 characters reserved for it. */
  lemma BlockWithinBound(s: Section, maxChars: int, i: nat)
    requires maxChars - |s.title| - 100 >= MIN_PART_CHARS
    requires |PartNumber(s.isResult, i, PartCount(s, maxChars))| <= 100
    ensures |Block(s, maxChars, i)| <= maxChars
  {
  }

  // ----- Chunks: greedy packing of whole blocks -----

  const BLOCK_SEPARATOR: string := "\n\n"

  /** One more block: it joins the last group when it fits there, and opens a group otherwise. */
  function Extend(done: seq<seq<string>>, block: string, maxChars: int): (r: seq<seq<string>>)
    ensures r != []
  {
    if done != [] && |ChunkText(done[|done| - 1])| + |block| + 2 <= maxChars
    then done[..|done| - 1] + [done[|done| - 1] + [block]]
    else done + [[block]]
  }

  /** Groups of consecutive blocks, each as long as the bound allows. */
  function Groups(blocks: seq<string>, maxChars: int): seq<seq<string>> {
    if blocks == [] then []
    else Extend(Groups(blocks[..|blocks| - 1], maxChars), blocks[|blocks| - 1], maxChars)
  }

  function ChunkText(group: seq<string>): string {
    Join(group, BLOCK_SEPARATOR)
  }

  lemma {:induction false} FlattenSplit<T>(groups: seq<seq<T>>, last: seq<T>)
    ensures Flatten(groups + [last]) == Flatten(groups) + last
  {
    assert (groups + [last])[..|groups|] == groups;
  }

  lemma {:induction false} JoinGrows(group: seq<string>, b: string)
    requires group != []
    ensures Join(group + [b], BLOCK_SEPARATOR) == Join(group, BLOCK_SEPARATOR) + BLOCK_SEPARATOR + b
  {
    assert (group + [b])[..|group|] == group;
  }

  lemma FlattenExtend(done: seq<seq<string>>, block: string, maxChars: int)
    ensures Flatten(Extend(done, block, maxChars)) == Flatten(done) + [block]
  {
    hide ChunkText;
    if |Extend(done, block, maxChars)| == |done| {
      var front, last := done[..|done| - 1], done[|done| - 1];
      FlattenSplit(front, last);
      FlattenSplit(front, last + [block]);
      assert done == front + [last];
    } else {
      FlattenSplit(done, [block]);
    }
  }

  /** Every block lands in exactly one chunk, in order. */
  lemma {:induction false} GroupsFlatten(blocks: seq<string>, maxChars: int)
    ensures Flatten(Groups(blocks, maxChars)) == blocks
  {
    hide Extend, ChunkText;
    if blocks != [] {
      var n := |blocks| - 1;
      GroupsFlatten(blocks[..n], maxChars);
      FlattenExtend(Groups(blocks[..n], maxChars), blocks[n], maxChars);
    }
  }

  /** No chunk is empty, and a chunk of two or more blocks respects the bound. */
  lemma {:induction false} GroupsWithinBound(blocks: seq<string>, maxChars: int, i: nat)
    requires i < |Groups(blocks, maxChars)|
    ensures var g := Groups(blocks, maxChars)[i];
      g != [] && (|g| >= 2 ==> |ChunkText(g)| <= maxChars)
  {
    var n := |blocks| - 1;
    var done := Groups(blocks[..n], maxChars);
    if i < |done| {
      GroupsWithinBound(blocks[..n], maxChars, i);
      if i == |done| - 1 {
        JoinGrows(done[i], blocks[n]);
      }
    }
  }

  /** Greedy: a chunk was closed only because the next block did not fit. */
  lemma {:induction false} GroupsAreGreedy(blocks: seq<string>, maxChars: int, i: nat)
    requires i + 1 < |Groups(blocks, maxChars)|
    ensures var g := Groups(blocks, maxChars);
      g[i + 1] != [] && |ChunkText(g[i])| + |g[i + 1][0]| + 2 > maxChars
  {
    var n := |blocks| - 1;
    var done := Groups(blocks[..n], maxChars);
    GroupsWithinBound(blocks, maxChars, i + 1);
    if i + 1 < |done| {
      GroupsWithinBound(blocks[..n], maxChars, i + 1);
      GroupsAreGreedy(blocks[..n], maxChars, i);
    }
  }

  // ----- The segmenting method -----

  function CallOf(calls: seq<ToolCall>, id: string): Option<ToolCall> {
    if calls == [] then None
    else if calls[|calls| - 1].id == id then Some(calls[|calls| - 1])
    else CallOf(calls[..|calls| - 1], id)
  }

  predicate Contains(s: string, t: string) {
    exists i :: 0 <= i <= |s| && t <= s[i..]
  }

  function ArgumentLabel(name: string): string {
    "工具 " + name + " 的原始调用参数"
  }

  function ResultLabel(m: Message, call: Option<ToolCall>): string {
    var args := if call.Some? then call.value.arguments else "{}";
    var truncated := Contains(m.Text(), "…[工具策略已截断") || Contains(m.Text(), "（内容已截断；");
    "工具 " + (if call.Some? then call.value.name else "未知") + "，参数 "
    + (if |args| > LONG_ARGUMENT_CHARS
       then args[..LONG_ARGUMENT_CHARS] + "…（参数共 " + Digits(|args|) + " 字符）" else args)
    + "，原始结果" + (if truncated then "已截断" else "完整")
  }

  function ArgumentSections(calls: seq<ToolCall>): (r: seq<Section>)
    ensures forall s :: s in r ==> !s.isResult
  {
    if calls == [] then []
    else
      var c := calls[|calls| - 1];
      ArgumentSections(calls[..|calls| - 1])
      + (if |c.arguments| <= LONG_ARGUMENT_CHARS then [] else [Section(ArgumentLabel(c.name), c.arguments, false)])
  }

  function ResultSection(m: Message, calls: seq<ToolCall>): Section {
    var media := Join(m.mediaRefs, "、");
    var id := if m.toolCallId.Some? then m.toolCallId.value else "";
    Section(ResultLabel(m, CallOf(calls, id)), m.Text() + (if media != "" then "\n媒体引用：" + media else ""), true)
  }

  function ResultSections(ms: seq<Message>, calls: seq<ToolCall>): (r: seq<Section>)
    ensures forall s :: s in r ==> s.isResult
  {
    if ms == [] then []
    else
      var m := ms[|ms| - 1];
      ResultSections(ms[..|ms| - 1], calls) + (if m.role == Tool then [ResultSection(m, calls)] else [])
  }

  function RoundCalls(ms: seq<Message>): seq<ToolCall> {
    if ms == [] then [] else ms[0].toolCalls
  }

  function Sections(ms: seq<Message>): seq<Section> {
    ArgumentSections(RoundCalls(ms)) + ResultSections(ms, RoundCalls(ms))
  }

  method CutSection(blocks: seq<string>, s: Section, maxChars: int) returns (r: seq<string>)
    ensures r == blocks + SectionBlocks(s, maxChars)
  {
    r := blocks;
    var count := PartCount(s, maxChars);
    for index := 0 to count
      invariant r == blocks + SectionBlocks(s, maxChars)[..index]
    {
      r := r + [Block(s, maxChars, index)];
    }
    assert SectionBlocks(s, maxChars)[..count] == SectionBlocks(s, maxChars);
  }

  lemma BlocksGrow(sections: seq<Section>, s: Section, maxChars: int)
    ensures Blocks(sections + [s], maxChars) == Blocks(sections, maxChars) + SectionBlocks(s, maxChars)
  {
    hide SectionBlocks;
    assert (sections + [s])[..|sections|] == sections;
  }

  method CutArguments(calls: seq<ToolCall>, maxChars: int) returns (blocks: seq<string>)
    ensures blocks == Blocks(ArgumentSections(calls), maxChars)
  {
    blocks := [];
    for i := 0 to |calls|
      invariant blocks == Blocks(ArgumentSections(calls[..i]), maxChars)
    {
      assert calls[..i + 1][..i] == calls[..i];
      ghost var before := ArgumentSections(calls[..i]);
      if |calls[i].arguments| > LONG_ARGUMENT_CHARS {
        var s := Section(ArgumentLabel(calls[i].name), calls[i].arguments, false);
        blocks := CutSection(blocks, s, maxChars);
        BlocksGrow(before, s, maxChars);
      } else {
        assert before + [] == before;
      }
    }
    assert calls[..|calls|] == calls;
  }

  method CutResults(ms: seq<Message>, calls: seq<ToolCall>, maxChars: int) returns (blocks: seq<string>, statuses: seq<string>)
    ensures blocks == Blocks(ResultSections(ms, calls), maxChars)
    ensures statuses == Titles(ResultSections(ms, calls))
  {
    blocks, statuses := [], [];
    NoResultsYet(ms, calls, maxChars);
    hide ResultSection, SectionBlocks, Blocks, ResultSections, Titles;
    for i := 0 to |ms|
      invariant blocks == Blocks(ResultSections(ms[..i], calls), maxChars)
      invariant statuses == Titles(ResultSections(ms[..i], calls))
    {
      CutResultsStep(ms, calls, maxChars, i);
      if ms[i].role == Tool {
        var s := ResultSection(ms[i], calls);
        blocks := CutSection(blocks, s, maxChars);
        statuses := statuses + [s.title];
      }
    }
    assert ms[..|ms|] == ms;
  }

  lemma NoResultsYet(ms: seq<Message>, calls: seq<ToolCall>, maxChars: int)
    ensures ResultSections(ms[..0], calls) == [] && Blocks([], maxChars) == [] && Titles([]) == []
  {
  }

  lemma CutResultsStep(ms: seq<Message>, calls: seq<ToolCall>, maxChars: int, i: nat)
    requires i < |ms|
    ensures var before, after := ResultSections(ms[..i], calls), ResultSections(ms[..i + 1], calls);
      if ms[i].role == Tool then
        var s := ResultSection(ms[i], calls);
        && Blocks(after, maxChars) == Blocks(before, maxChars) + SectionBlocks(s, maxChars)
        && Titles(after) == Titles(before) + [s.title]
      else after == before
  {
    hide ResultSection, SectionBlocks, Blocks, ResultSections;
    ResultsStep(ms, calls, i);
    BlocksGrow(ResultSections(ms[..i], calls), ResultSection(ms[i], calls), maxChars);
  }

  lemma ResultsStep(ms: seq<Message>, calls: seq<ToolCall>, i: nat)
    requires i < |ms|
    ensures var before := ResultSections(ms[..i], calls);
      ResultSections(ms[..i + 1], calls) == if ms[i].role == Tool then before + [ResultSection(ms[i], calls)] else before
  {
    assert ms[..i + 1][..i] == ms[..i];
  }

  lemma Regroup<T>(x: seq<T>, y: seq<T>, z: seq<T>)
    ensures x + (y + z) == (x + y) + z
  {
  }

  lemma {:induction false} BlocksOfTwo(a: seq<Section>, b: seq<Section>, maxChars: int)
    ensures Blocks(a + b, maxChars) == Blocks(a, maxChars) + Blocks(b, maxChars)
  {
    if b == [] {
      assert a + b == a;
    } else {
      var c, s := b[..|b| - 1], b[|b| - 1];
      assert b == c + [s];
      Regroup(a, c, [s]);
      BlocksOfTwo(a, c, maxChars);
      BlocksGrow(c, s, maxChars);
      BlocksGrow(a + c, s, maxChars);
      hide Blocks, SectionBlocks;
      Regroup(Blocks(a, maxChars), Blocks(c, maxChars), SectionBlocks(s, maxChars));
    }
  }

  function Titles(sections: seq<Section>): seq<string> {
    Map((s: Section) => s.title, sections)
  }

  // ----- What the blocks say of the round -----

  /** The positions of the calls whose arguments are too long for a label. */
  function LongCalls(calls: seq<ToolCall>): (r: seq<nat>)
    ensures forall a :: 0 <= a < |r| ==> r[a] < |calls| && |calls[r[a]].arguments| > LONG_ARGUMENT_CHARS
    ensures forall a, b :: 0 <= a < b < |r| ==> r[a] < r[b]
    ensures forall i: nat :: i < |calls| && |calls[i].arguments| > LONG_ARGUMENT_CHARS ==> i in r
  {
    if calls == [] then []
    else
      var n := |calls| - 1;
      LongCalls(calls[..n]) + (if |calls[n].arguments| > LONG_ARGUMENT_CHARS then [n] else [])
  }

  /** The positions of the results. */
  function ToolResults(ms: seq<Message>): (r: seq<nat>)
    ensures forall a :: 0 <= a < |r| ==> r[a] < |ms| && ms[r[a]].role == Tool
    ensures forall a, b :: 0 <= a < b < |r| ==> r[a] < r[b]
    ensures forall i: nat :: i < |ms| && ms[i].role == Tool ==> i in r
  {
    if ms == [] then []
    else
      var n := |ms| - 1;
      ToolResults(ms[..n]) + (if ms[n].role == Tool then [n] else [])
  }

  /** The blocks carry the text in consecutive pieces, each behind the label and its part number. */
  ghost predicate Carries(blocks: seq<string>, title: string, isResult: bool, text: string) {
    exists pieces ::
      && |pieces| == |blocks| && Concat(pieces) == text
      && forall i :: 0 <= i < |blocks| ==> blocks[i] == title + PartNumber(isResult, i, |blocks|) + pieces[i]
  }

  /** The text of the result, and behind it the media it refers to. */
  function Told(m: Message): string {
    m.Text() + if Join(m.mediaRefs, "、") == "" then "" else "\n媒体引用：" + Join(m.mediaRefs, "、")
  }

  predicate EndsIn(s: string, end: string) {
    |end| <= |s| && s[|s| - |end|..] == end
  }

  /** The result answers call `i`: among the calls of its id it is the last one. */
  predicate AnswersCall(m: Message, calls: seq<ToolCall>, i: nat) {
    && i < |calls| && calls[i].id == (if m.toolCallId.Some? then m.toolCallId.value else "")
    && forall j :: i < j < |calls| ==> calls[j].id != calls[i].id
  }

  function ShortArguments(arguments: string): string {
    if |arguments| > LONG_ARGUMENT_CHARS
    then arguments[..LONG_ARGUMENT_CHARS] + "…（参数共 " + Digits(|arguments|) + " 字符）" else arguments
  }

  predicate IsCut(m: Message) {
    Contains(m.Text(), "…[工具策略已截断") || Contains(m.Text(), "（内容已截断；")
  }

  /** The label names the call that the result answers, and says whether the result was cut. */
  ghost predicate Labels(title: string, m: Message, calls: seq<ToolCall>) {
    && EndsIn(title, if IsCut(m) then "，原始结果已截断" else "，原始结果完整")
    && (forall i: nat :: AnswersCall(m, calls, i) ==>
          "工具 " + calls[i].name + "，参数 " + ShortArguments(calls[i].arguments) <= title)
    && ((forall i: nat :: !AnswersCall(m, calls, i)) ==> "工具 未知，参数 {}" <= title)
  }

  /** One part for every long argument, in order, carries it under the name of its tool. */
  ghost predicate TellsArguments(parts: seq<seq<string>>, calls: seq<ToolCall>) {
    var longs := LongCalls(calls);
    && |parts| == |longs|
    && forall i :: 0 <= i < |parts| ==>
         Carries(parts[i], "工具 " + calls[longs[i]].name + " 的原始调用参数", false, calls[longs[i]].arguments)
  }

  /** One part of at least one block for every result, in order, carries its text and media. */
  ghost predicate TellsResults(parts: seq<seq<string>>, statuses: seq<string>, ms: seq<Message>, calls: seq<ToolCall>) {
    var results := ToolResults(ms);
    && |parts| == |statuses| == |results|
    && forall i :: 0 <= i < |parts| ==>
         && Carries(parts[i], statuses[i], true, Told(ms[results[i]]))
         && parts[i] != [] && Labels(statuses[i], ms[results[i]], calls)
  }

  /** The chunks are made of the blocks of the round, in order: those of the long arguments of its calls,
      then those of its results. */
  ghost predicate ChunksTell(chunks: seq<string>, statuses: seq<string>, ms: seq<Message>) {
    var calls := if ms == [] then [] else ms[0].toolCalls;
    exists groups, arguments, results ::
      && chunks == Map(ChunkText, groups) && Flatten(groups) == Flatten(arguments) + Flatten(results)
      && TellsArguments(arguments, calls) && TellsResults(results, statuses, ms, calls)
  }

  function Parts(sections: seq<Section>, maxChars: int): (r: seq<seq<string>>)
    ensures |r| == |sections|
    ensures forall i :: 0 <= i < |r| ==> r[i] == SectionBlocks(sections[i], maxChars)
  {
    seq(|sections|, i requires 0 <= i < |sections| => SectionBlocks(sections[i], maxChars))
  }

  lemma {:induction false} PartsFlatten(sections: seq<Section>, maxChars: int)
    ensures Flatten(Parts(sections, maxChars)) == Blocks(sections, maxChars)
  {
    hide SectionBlocks;
    if sections != [] {
      var n := |sections| - 1;
      PartsFlatten(sections[..n], maxChars);
      assert Parts(sections, maxChars)[..n] == Parts(sections[..n], maxChars);
    }
  }

  lemma SectionCarries(s: Section, maxChars: int)
    ensures Carries(SectionBlocks(s, maxChars), s.title, s.isResult, s.body)
  {
    hide SectionBlocks, Concat;
    SectionLosesNothing(s, maxChars);
  }

  ghost predicate AreArguments(sections: seq<Section>, calls: seq<ToolCall>) {
    var longs := LongCalls(calls);
    && |sections| == |longs|
    && forall i :: 0 <= i < |longs| ==>
         sections[i] == Section(ArgumentLabel(calls[longs[i]].name), calls[longs[i]].arguments, false)
  }

  ghost predicate AreResults(sections: seq<Section>, ms: seq<Message>, calls: seq<ToolCall>) {
    var results := ToolResults(ms);
    && |sections| == |results|
    && forall i :: 0 <= i < |results| ==> sections[i] == ResultSection(ms[results[i]], calls)
  }

  lemma {:induction false} ArgumentSectionsAre(calls: seq<ToolCall>)
    ensures AreArguments(ArgumentSections(calls), calls)
  {
    hide ArgumentLabel;
    if calls != [] {
      ArgumentSectionsAre(calls[..|calls| - 1]);
    }
  }

  lemma {:induction false} ResultSectionsAre(ms: seq<Message>, calls: seq<ToolCall>)
    ensures AreResults(ResultSections(ms, calls), ms, calls)
  {
    hide ResultSection;
    if ms != [] {
      ResultSectionsAre(ms[..|ms| - 1], calls);
    }
  }

  lemma {:induction false} CallOfIsLast(m: Message, calls: seq<ToolCall>)
    ensures var found := CallOf(calls, if m.toolCallId.Some? then m.toolCallId.value else "");
      && (forall i: nat :: AnswersCall(m, calls, i) ==> found == Some(calls[i]))
      && (found.Some? ==> exists i: nat :: AnswersCall(m, calls, i))
  {
    var id := if m.toolCallId.Some? then m.toolCallId.value else "";
    if calls != [] {
      var n := |calls| - 1;
      if calls[n].id == id {
        assert AnswersCall(m, calls, n);
      } else {
        CallOfIsLast(m, calls[..n]);
        forall i: nat ensures AnswersCall(m, calls, i) <==> AnswersCall(m, calls[..n], i) {
        }
      }
    }
  }

  lemma ResultIsLabelled(m: Message, calls: seq<ToolCall>)
    ensures Labels(ResultSection(m, calls).title, m, calls)
  {
    CallOfIsLast(m, calls);
    hide AnswersCall;
  }

  lemma ResultIsTold(m: Message, calls: seq<ToolCall>)
    ensures ResultSection(m, calls).body == Told(m) && ResultSection(m, calls).isResult
  {
    hide ResultLabel;
  }

  lemma ArgumentsTell(calls: seq<ToolCall>, maxChars: int)
    ensures TellsArguments(Parts(ArgumentSections(calls), maxChars), calls)
  {
    hide Carries, SectionBlocks, LongCalls, ArgumentSections;
    ArgumentSectionsAre(calls);
    var parts := Parts(ArgumentSections(calls), maxChars);
    forall i | 0 <= i < |parts|
      ensures Carries(parts[i], ArgumentLabel(calls[LongCalls(calls)[i]].name), false, calls[LongCalls(calls)[i]].arguments)
    {
      SectionCarries(ArgumentSections(calls)[i], maxChars);
    }
  }

  lemma ResultsTell(ms: seq<Message>, calls: seq<ToolCall>, maxChars: int)
    ensures TellsResults(Parts(ResultSections(ms, calls), maxChars), Titles(ResultSections(ms, calls)), ms, calls)
  {
    hide Carries, Labels, Told, SectionBlocks, ToolResults, ResultSection, ResultSections;
    ResultSectionsAre(ms, calls);
    var sections := ResultSections(ms, calls);
    forall i | 0 <= i < |sections|
      ensures Carries(SectionBlocks(sections[i], maxChars), sections[i].title, true, Told(ms[ToolResults(ms)[i]]))
      ensures SectionBlocks(sections[i], maxChars) != [] && Labels(sections[i].title, ms[ToolResults(ms)[i]], calls)
    {
      SectionCarries(sections[i], maxChars);
      ResultIsTold(ms[ToolResults(ms)[i]], calls);
      ResultIsLabelled(ms[ToolResults(ms)[i]], calls);
    }
  }

  /** The chunks carry every long argument and every result of the round whole and in order. */
  lemma RoundIsTold(ms: seq<Message>, maxChars: int)
    ensures ChunksTell(ChunksOf(ms, maxChars), Titles(ResultSections(ms, RoundCalls(ms))), ms)
  {
    hide TellsArguments, TellsResults, ChunkText, Groups, Blocks, ArgumentSections, ResultSections;
    var calls := RoundCalls(ms);
    var arguments, results := ArgumentSections(calls), ResultSections(ms, calls);
    ArgumentsTell(calls, maxChars);
    ResultsTell(ms, calls, maxChars);
    PartsFlatten(arguments, maxChars);
    PartsFlatten(results, maxChars);
    BlocksOfTwo(arguments, results, maxChars);
    GroupsFlatten(Blocks(Sections(ms), maxChars), maxChars);
    assert Flatten(Groups(Blocks(Sections(ms), maxChars), maxChars)) ==
      Flatten(Parts(arguments, maxChars)) + Flatten(Parts(results, maxChars));
  }

  method SegmentToolRoundForSummary(ms: seq<Message>, maxChars: int)
    returns (chunks: seq<string>, statuses: seq<string>)
    ensures chunks == ChunksOf(ms, maxChars)
    ensures ChunksTell(chunks, statuses, ms)
  {
    RoundIsTold(ms, maxChars);
    var calls := RoundCalls(ms);
    var blocks := CutArguments(calls, maxChars);
    var results;
    results, statuses := CutResults(ms, calls, maxChars);
    BlocksOfTwo(ArgumentSections(calls), ResultSections(ms, calls), maxChars);
    chunks := Pack(blocks + results, maxChars);
  }

  lemma ChunkGrows(group: seq<string>, b: string)
    ensures ChunkText([b]) == b
    ensures group != [] ==> ChunkText(group + [b]) == ChunkText(group) + BLOCK_SEPARATOR + b
  {
    if group != [] {
      JoinGrows(group, b);
    }
  }

  /** The chunks of all groups but the last, and the text of the last. */
  ghost predicate Packed(g: seq<seq<string>>, chunks: seq<string>, current: string) {
    if g == [] then chunks == [] && current == ""
    else chunks == Map(ChunkText, g[..|g| - 1]) && current == ChunkText(g[|g| - 1])
  }

  lemma PackStep(g: seq<seq<string>>, chunks: seq<string>, current: string, block: string, maxChars: int)
    requires Packed(g, chunks, current) && (g != [] ==> current != "")
    ensures var fits := current != "" && |current| + |block| + 2 <= maxChars;
      Packed(Extend(g, block, maxChars),
             if current == "" || fits then chunks else chunks + [current],
             if fits then current + BLOCK_SEPARATOR + block else block)
  {
    var r := Extend(g, block, maxChars);
    ChunkGrows(if g == [] then [] else g[|g| - 1], block);
    hide ChunkText;
    if |r| == |g| {
      assert r[..|r| - 1] == g[..|g| - 1];
    } else {
      assert r[..|r| - 1] == g;
      if g != [] {
        assert Map(ChunkText, g) == Map(ChunkText, g[..|g| - 1]) + [current];
      }
    }
  }

  method Pack(blocks: seq<string>, maxChars: int) returns (chunks: seq<string>)
    requires forall b :: b in blocks ==> b != ""
    ensures chunks == Map(ChunkText, Groups(blocks, maxChars))
  {
    chunks := [];
    var current := "";
    for i := 0 to |blocks|
      invariant Packed(Groups(blocks[..i], maxChars), chunks, current)
      invariant i > 0 ==> current != ""
    {
      var block := blocks[i];
      assert block in blocks && blocks[..i + 1][..i] == blocks[..i];
      PackStep(Groups(blocks[..i], maxChars), chunks, current, block, maxChars);
      if current != "" && |current| + |block| + 2 > maxChars {
        chunks := chunks + [current];
        current := "";
      }
      current := if current == "" then block else current + BLOCK_SEPARATOR + block;
    }
    assert blocks[..|blocks|] == blocks;
    if current != "" {
      ghost var g := Groups(blocks, maxChars);
      assert g == g[..|g| - 1] + [g[|g| - 1]];
      chunks := chunks + [current];
    }
  }

  // ----- The size of every chunk -----

  /** The label leaves at least the least piece beyond 100 characters, and every part number fits those. */
  ghost predicate LeavesRoom(s: Section, maxChars: int) {
    && maxChars - |s.title| - 100 >= MIN_PART_CHARS
    && forall i: nat :: i < PartCount(s, maxChars) ==> |PartNumber(s.isResult, i, PartCount(s, maxChars))| <= 100
  }

  lemma {:induction false} BlocksWithinBound(sections: seq<Section>, maxChars: int, b: string)
    requires forall s :: s in sections ==> LeavesRoom(s, maxChars)
    requires b in Blocks(sections, maxChars)
    ensures |b| <= maxChars
  {
    var last := sections[|sections| - 1];
    if b in SectionBlocks(last, maxChars) {
      var i: nat :| i < PartCount(last, maxChars) && SectionBlocks(last, maxChars)[i] == b;
      assert LeavesRoom(last, maxChars);
      BlockWithinBound(last, maxChars, i);
    } else {
      BlocksWithinBound(sections[..|sections| - 1], maxChars, b);
    }
  }

  lemma {:induction false} FlattenMembers<T>(groups: seq<seq<T>>, i: nat, x: T)
    requires i < |groups| && x in groups[i]
    ensures x in Flatten(groups)
  {
    if i < |groups| - 1 {
      FlattenMembers(groups[..|groups| - 1], i, x);
    }
  }

  /** With enough room no request text exceeds the bound, chunks of a single block included. */
  lemma ChunksWithinBound(ms: seq<Message>, maxChars: int, i: nat)
    requires forall s :: s in Sections(ms) ==> LeavesRoom(s, maxChars)
    requires i < |Groups(Blocks(Sections(ms), maxChars), maxChars)|
    ensures |ChunkText(Groups(Blocks(Sections(ms), maxChars), maxChars)[i])| <= maxChars
  {
    var blocks := Blocks(Sections(ms), maxChars);
    var g := Groups(blocks, maxChars);
    GroupsWithinBound(blocks, maxChars, i);
    if |g[i]| == 1 {
      FlattenMembers(g, i, g[i][0]);
      GroupsFlatten(blocks, maxChars);
      BlocksWithinBound(Sections(ms), maxChars, g[i][0]);
    }
  }

  // ----- Folding the answers back into one -----

  const MAX_MERGE_LEVELS: nat := 8

  /** The text the model returned for the n-th request, or nothing when the request threw. */
  type Asker = (nat, string) -> Option<string>

  /** The trimmed answer; an empty one counts as a failure. */
  function AnswerTo(ask: Asker, n: nat, text: string): Option<string> {
    var a := ask(n, text);
    if a.Some? && Trim(a.value) != "" then Some(Trim(a.value)) else None
  }

  /** `parts` are the answers to the requests sent from `base` on, in order. */
  ghost predicate AreAnswers(ask: Asker, sent: seq<string>, base: nat, parts: seq<string>) {
    && base + |parts| == |sent|
    && forall k :: 0 <= k < |parts| ==> AnswerTo(ask, base + k, sent[base + k]) == Some(parts[k])
  }

  ghost predicate LastUnanswered(ask: Asker, sent: seq<string>) {
    sent != [] && AnswerTo(ask, |sent| - 1, sent[|sent| - 1]).None?
  }

  /** Sends each text in turn and stops at the first that has no answer. */
  method AskEach(ask: Asker, before: seq<string>, texts: seq<string>) returns (parts: seq<string>, sent: seq<string>, ok: bool)
    ensures before <= sent <= before + texts
    ensures ok ==> sent == before + texts && AreAnswers(ask, sent, |before|, parts)
    ensures !ok ==> LastUnanswered(ask, sent)
  {
    hide AnswerTo;
    parts, sent, ok := [], before, true;
    for i := 0 to |texts|
      invariant sent == before + texts[..i]
      invariant AreAnswers(ask, sent, |before|, parts)
    {
      var a := AnswerTo(ask, |sent|, texts[i]);
      sent := sent + [texts[i]];
      assert sent == before + texts[..i + 1];
      if a.None? {
        return [], sent, false;
      }
      parts := parts + [a.value];
    }
  }

  function AnswerText(ask: Asker, n: nat, text: string): string {
    var a := AnswerTo(ask, n, text);
    if a.Some? then a.value else ""
  }

  /** What the requests from `lo` up to `hi` were answered, in order. */
  function AnswersBetween(ask: Asker, sent: seq<string>, lo: nat, hi: nat): seq<string>
    requires lo <= hi <= |sent|
  {
    seq(hi - lo, k requires 0 <= k < hi - lo => AnswerText(ask, lo + k, sent[lo + k]))
  }

  /** The joined answers to the requests from `lo` up to `hi`. */
  function JoinedAnswers(ask: Asker, sent: seq<string>, lo: nat, hi: nat): string
    requires lo <= hi <= |sent|
  {
    Join(AnswersBetween(ask, sent, lo, hi), BLOCK_SEPARATOR)
  }

  /** The requests from `mid` up to `hi` carry, in order, all that those from `lo` on were answered. */
  predicate CarriesAll(ask: Asker, sent: seq<string>, lo: nat, mid: nat, hi: nat) {
    lo <= mid <= hi <= |sent| && Concat(sent[mid..hi]) == JoinedAnswers(ask, sent, lo, mid)
  }

  /** The requests fall into levels that start at `marks`: each level carries all answers of the one
      before, and what was sent after the last mark carries a beginning of the last level's answers. */
  ghost predicate Levels(ask: Asker, sent: seq<string>, marks: seq<nat>) {
    && |marks| >= 2 && marks[|marks| - 2] <= marks[|marks| - 1] <= |sent|
    && (forall i :: 0 <= i && i + 2 < |marks| ==> CarriesAll(ask, sent, marks[i], marks[i + 1], marks[i + 2]))
    && Concat(sent[marks[|marks| - 1]..]) <= JoinedAnswers(ask, sent, marks[|marks| - 2], marks[|marks| - 1])
  }

  /** The levels end with the requests, in a level of one. */
  ghost predicate EndsInOne(sent: seq<string>, marks: seq<nat>) {
    |marks| >= 2 && marks[|marks| - 1] == |sent| == marks[|marks| - 2] + 1
  }

  /** Merging the requests from `start` up to `first` loses nothing between two levels. */
  ghost predicate MergesByLevel(ask: Asker, sent: seq<string>, start: nat, first: nat, done: bool) {
    exists marks: seq<nat> ::
      Levels(ask, sent, marks) && marks[0] == start && marks[1] == first && (done ==> EndsInOne(sent, marks))
  }

  lemma {:induction false} ConcatPrefix(parts: seq<string>, n: nat)
    requires n <= |parts|
    ensures Concat(parts[..n]) <= Concat(parts)
  {
    if n < |parts| {
      var init := parts[..|parts| - 1];
      assert init[..n] == parts[..n];
      ConcatPrefix(init, n);
    } else {
      assert parts[..n] == parts;
    }
  }

  lemma AnswersStay(ask: Asker, sent: seq<string>, more: seq<string>, lo: nat, hi: nat)
    requires sent <= more && lo <= hi <= |sent|
    ensures AnswersBetween(ask, more, lo, hi) == AnswersBetween(ask, sent, lo, hi)
  {
  }

  lemma PartsAreAnswers(ask: Asker, sent: seq<string>, base: nat, parts: seq<string>)
    requires AreAnswers(ask, sent, base, parts)
    ensures AnswersBetween(ask, sent, base, |sent|) == parts
  {
    assert forall k :: 0 <= k < |parts| ==> AnswerText(ask, base + k, sent[base + k]) == parts[k];
  }

  lemma LevelStays(ask: Asker, sent: seq<string>, more: seq<string>, lo: nat, mid: nat, hi: nat)
    requires sent <= more && CarriesAll(ask, sent, lo, mid, hi)
    ensures CarriesAll(ask, more, lo, mid, hi)
  {
    hide Concat, Join;
    AnswersStay(ask, sent, more, lo, mid);
    assert more[mid..hi] == sent[mid..hi];
  }

  /** Further requests carry answers of the last level; if they carry all of them, they are a level. */
  lemma LevelsGrow(ask: Asker, sent: seq<string>, more: seq<string>, marks: seq<nat>)
    requires Levels(ask, sent, marks) && marks[|marks| - 1] == |sent| && sent <= more
    requires Concat(more[|sent|..]) <= JoinedAnswers(ask, sent, marks[|marks| - 2], |sent|)
    ensures Levels(ask, more, marks)
    ensures Concat(more[|sent|..]) == JoinedAnswers(ask, sent, marks[|marks| - 2], |sent|) ==>
      Levels(ask, more, marks + [|more|])
  {
    hide Concat, Join, AnswersBetween, CarriesAll;
    forall i | 0 <= i && i + 2 < |marks| ensures CarriesAll(ask, more, marks[i], marks[i + 1], marks[i + 2]) {
      LevelStays(ask, sent, more, marks[i], marks[i + 1], marks[i + 2]);
    }
    AnswersStay(ask, sent, more, marks[|marks| - 2], |sent|);
    if Concat(more[|sent|..]) == JoinedAnswers(ask, sent, marks[|marks| - 2], |sent|) {
      LastLevel(ask, more, marks[|marks| - 2], |sent|);
      NothingSent(more);
    }
  }

  lemma LastLevel(ask: Asker, more: seq<string>, lo: nat, mid: nat)
    requires lo <= mid <= |more| && Concat(more[mid..]) == JoinedAnswers(ask, more, lo, mid)
    ensures CarriesAll(ask, more, lo, mid, |more|)
  {
    assert more[mid..|more|] == more[mid..];
  }

  lemma NothingSent(sent: seq<string>)
    ensures Concat(sent[|sent|..]) == ""
  {
  }

  /** A text cut into pieces within the bound; nothing of it is lost. */
  function TextPieces(text: string, size: nat): (r: seq<string>)
    requires size > 0
    ensures Concat(r) == text && (text != "" ==> r != [])
    ensures forall t :: t in r ==> |t| <= size
  {
    PiecesLoseNothing(text, size, CeilDiv(|text|, size));
    Pieces(text, size, CeilDiv(|text|, size))
  }

  /** One level: the joined answers are cut to the bound and the pieces asked in turn. */
  method MergeLevel(ask: Asker, before: seq<string>, parts: seq<string>, maxChars: nat, ghost marks: seq<nat>)
    returns (next: seq<string>, sent: seq<string>, ok: bool)
    requires maxChars > 0 && |parts| > 1
    requires |marks| >= 2 && Levels(ask, before, marks) && marks[|marks| - 1] == |before|
    requires AreAnswers(ask, before, marks[|marks| - 2], parts)
    ensures before <= sent && Levels(ask, sent, marks)
    ensures forall k :: |before| <= k < |sent| ==> |sent[k]| <= maxChars
    ensures ok ==> next != [] && AreAnswers(ask, sent, |before|, next) && Levels(ask, sent, marks + [|sent|])
    ensures !ok ==> LastUnanswered(ask, sent)
  {
    hide Concat, Join, Levels, AreAnswers, TextPieces, LastUnanswered;
    var combined := Join(parts, BLOCK_SEPARATOR);
    var texts := TextPieces(combined, maxChars);
    JoinNotEmpty(parts);
    next, sent, ok := AskEach(ask, before, texts);
    assert sent[|before|..] == texts[..|sent| - |before|];
    assert texts[..|texts|] == texts;
    forall k | |before| <= k < |sent| ensures |sent[k]| <= maxChars {
      assert sent[k] == texts[k - |before|];
    }
    ConcatPrefix(texts, |sent| - |before|);
    PartsAreAnswers(ask, before, marks[|marks| - 2], parts);
    LevelsGrow(ask, before, sent, marks);
    if ok {
      AnswersMatch(ask, sent, |before|, next);
    }
  }

  lemma AnswersMatch(ask: Asker, sent: seq<string>, base: nat, parts: seq<string>)
    requires AreAnswers(ask, sent, base, parts)
    ensures base + |parts| == |sent|
    ensures |parts| == 1 ==> AnswerTo(ask, |sent| - 1, sent[|sent| - 1]) == Some(parts[0])
  {
    assert |parts| == 1 ==> AnswerTo(ask, base + 0, sent[base + 0]) == Some(parts[0]);
  }

  lemma FirstLevel(ask: Asker, first: seq<string>, start: nat)
    requires start <= |first|
    ensures Levels(ask, first, [start, |first|])
  {
    NothingSent(first);
  }

  lemma LevelsMean(ask: Asker, sent: seq<string>, marks: seq<nat>, start: nat, first: nat, done: bool)
    requires |marks| >= 2 && Levels(ask, sent, marks) && marks[0] == start && marks[1] == first
    requires done ==> EndsInOne(sent, marks)
    ensures MergesByLevel(ask, sent, start, first, done)
  {
  }

  /** The answers are joined, cut to the bound and asked again until one is left. Nothing is lost
      between two levels, also on a run that fails. */
  method MergeAnswers(ask: Asker, first: seq<string>, answers: seq<string>, maxChars: nat, ghost start: nat)
    returns (r: Option<string>, sent: seq<string>)
    requires maxChars > 0 && answers != [] && AreAnswers(ask, first, start, answers)
    ensures first <= sent
    ensures MergesByLevel(ask, sent, start, |first|, r.Some?)
    ensures forall k :: |first| <= k < |sent| ==> |sent[k]| <= maxChars
    ensures r.Some? ==> sent != [] && r == AnswerTo(ask, |sent| - 1, sent[|sent| - 1])
  {
    hide AreAnswers, AnswerTo, Levels, MergesByLevel, LastUnanswered;
    sent := first;
    var parts := answers;
    AnswersMatch(ask, first, start, answers);
    ghost var marks: seq<nat> := [start, |first|];
    FirstLevel(ask, first, start);
    var level := 0;
    while |parts| > 1
      invariant first <= sent && parts != []
      invariant |marks| >= 2 && marks[0] == start && marks[1] == |first| && marks[|marks| - 1] == |sent|
      invariant Levels(ask, sent, marks)
      invariant AreAnswers(ask, sent, marks[|marks| - 2], parts)
      invariant forall k :: |first| <= k < |sent| ==> |sent[k]| <= maxChars
      decreases |parts|
    {
      if level >= MAX_MERGE_LEVELS {
        LevelsMean(ask, sent, marks, start, |first|, false);
        return None, sent;
      }
      var next, ok;
      next, sent, ok := MergeLevel(ask, sent, parts, maxChars, marks);
      if !ok || |next| >= |parts| {
        LevelsMean(ask, sent, marks, start, |first|, false);
        return None, sent;
      }
      marks := marks + [|sent|];
      parts := next;
      level := level + 1;
    }
    AnswersMatch(ask, sent, marks[|marks| - 2], parts);
    LevelsMean(ask, sent, marks, start, |first|, true);
    r := Some(parts[0]);
  }

  lemma JoinNotEmpty(parts: seq<string>)
    requires |parts| > 1
    ensures |Join(parts, BLOCK_SEPARATOR)| >= 2
  {
  }

  function SummaryChars(contextBudget: int): nat {
    Max(512, contextBudget * 6 / 10)
  }

  function ChunksOf(ms: seq<Message>, maxChars: int): seq<string> {
    Map(ChunkText, Groups(Blocks(Sections(ms), maxChars), maxChars))
  }

  /** The chunks are asked in order and their answers merged, each level carrying all of the one before. A result is the answer to the last
      request (or empty when there was nothing to ask), and no merge request exceeds the bound. */
  method SummarizeRecentToolRound(ms: seq<Message>, contextBudget: int, ask: Asker)
    returns (r: Option<string>, sent: seq<string>, chunks: seq<string>)
    ensures chunks == ChunksOf(ms, SummaryChars(contextBudget))
    ensures exists statuses :: ChunksTell(chunks, statuses, ms)
    ensures r.Some? ==> chunks <= sent
    ensures r.Some? && sent != [] ==> r == AnswerTo(ask, |sent| - 1, sent[|sent| - 1])
    ensures r.Some? && sent == [] ==> r.value == ""
    ensures chunks != [] && (r.Some? || |sent| > |chunks|) ==>
      chunks <= sent && MergesByLevel(ask, sent, 0, |chunks|, r.Some?)
    ensures forall k :: |chunks| <= k < |sent| ==> |sent[k]| <= SummaryChars(contextBudget)
  {
    var statuses;
    chunks, statuses := SegmentToolRoundForSummary(ms, SummaryChars(contextBudget));
    r, sent := AskAndMerge(ask, chunks, SummaryChars(contextBudget));
  }

  method AskAndMerge(ask: Asker, chunks: seq<string>, maxChars: nat) returns (r: Option<string>, sent: seq<string>)
    requires maxChars > 0
    ensures r.Some? ==> chunks <= sent
    ensures r.Some? && sent != [] ==> r == AnswerTo(ask, |sent| - 1, sent[|sent| - 1])
    ensures r.Some? && sent == [] ==> r.value == ""
    ensures chunks != [] && (r.Some? || |sent| > |chunks|) ==>
      chunks <= sent && MergesByLevel(ask, sent, 0, |chunks|, r.Some?)
    ensures forall k :: |chunks| <= k < |sent| ==> |sent[k]| <= maxChars
  {
    hide MergesByLevel, AnswerTo, AreAnswers;
    var parts, ok;
    parts, sent, ok := AskEach(ask, [], chunks);
    assert [] + chunks == chunks;
    if !ok {
      return None, sent;
    }
    AnswersMatch(ask, sent, 0, parts);
    if parts == [] {
      return Some(""), sent;
    }
    r, sent := MergeAnswers(ask, sent, parts, maxChars, 0);
  }
}
