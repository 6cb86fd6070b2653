/** The neutral message list that context compaction works on, and the pairing forms it must keep. */
module Messages {
  import opened Wrappers

  datatype Role = System | User | Assistant | Tool

  datatype Collapse = Intact | Masked | Summarized

  datatype ToolCall = ToolCall(id: string, name: string, arguments: string)

  /** `tag` stands for object identity: two entries of one list never share it, and a rewritten
      copy of a message keeps it. `providerState` records only whether replay state is present. */
  datatype Message = Message(
    tag: nat,
    role: Role,
    content: Option<string>,
    toolCalls: seq<ToolCall>,
    toolCallId: Option<string>,
    collapsed: Collapse,
    providerState: bool,
    mediaRefs: seq<string>)
  {
    function Text(): string {
      if content.Some? then content.value else ""
    }
  }

  predicate HasCall(calls: seq<ToolCall>, id: string) {
    exists c :: c in calls && c.id == id
  }

  /** `m` is an assistant turn that issued the call `id`. */
  predicate Issues(m: Message, id: string) {
    m.role == Assistant && HasCall(m.toolCalls, id)
  }

  /** `m` is a tool turn that answers the call `id`; an empty id answers nothing. */
  predicate Answers(m: Message, id: string) {
    m.role == Tool && m.toolCallId == Some(id) && id != ""
  }

  predicate CallsTools(m: Message) {
    m.role == Assistant && m.toolCalls != []
  }

  /** Some result of `id` is in the list. */
  predicate Answered(ms: seq<Message>, id: string) {
    exists j :: 0 <= j < |ms| && Answers(ms[j], id)
  }

  /** Some assistant turn of the list issued the call. */
  predicate IssuedBy(ms: seq<Message>, id: string) {
    exists i :: 0 <= i < |ms| && Issues(ms[i], id)
  }

  /** `i` is the assistant that owns the result at `j`: only results stand between them. */
  ghost predicate Owns(ms: seq<Message>, i: nat, j: nat)
    requires j < |ms|
  {
    && i < j
    && ms[j].role == Tool
    && ms[j].toolCallId.Some?
    && ms[j].toolCallId.value != ""
    && Issues(ms[i], ms[j].toolCallId.value)
    && forall k :: i < k < j ==> ms[k].role == Tool
  }

  ghost predicate DistinctCallIds(ms: seq<Message>) {
    forall i, j, id ::
      0 <= i < |ms| && 0 <= j < |ms| && Issues(ms[i], id) && Issues(ms[j], id) ==> i == j
  }

  /** Every result lies in the unbroken run of results right after the assistant that issued its
      call, and no call id is issued by two assistants. */
  ghost predicate RoundForm(ms: seq<Message>) {
    && DistinctCallIds(ms)
    && forall j :: 0 <= j < |ms| && ms[j].role == Tool ==> exists i: nat :: Owns(ms, i, j)
  }

  predicate DistinctTags(ms: seq<Message>) {
    forall i, j :: 0 <= i < j < |ms| ==> ms[i].tag != ms[j].tag
  }

  predicate SameCallIds(a: seq<ToolCall>, b: seq<ToolCall>) {
    && |a| == |b|
    && forall k :: 0 <= k < |a| ==> a[k].id == b[k].id && a[k].name == b[k].name
  }

  /** What masking may not touch: identity, role, call ids and names, and the id a result answers. */
  predicate SameShape(a: Message, b: Message) {
    && a.tag == b.tag
    && a.role == b.role
    && a.toolCallId == b.toolCallId
    && SameCallIds(a.toolCalls, b.toolCalls)
  }

  predicate SameShapes(a: seq<Message>, b: seq<Message>) {
    && |a| == |b|
    && forall k :: 0 <= k < |a| ==> SameShape(a[k], b[k])
  }

  lemma ShapeKeepsIssues(a: Message, b: Message, id: string)
    requires SameShape(a, b)
    ensures Issues(a, id) <==> Issues(b, id)
  {
    if Issues(a, id) {
      var k :| 0 <= k < |a.toolCalls| && a.toolCalls[k].id == id;
      assert b.toolCalls[k] in b.toolCalls;
    }
    if Issues(b, id) {
      var k :| 0 <= k < |b.toolCalls| && b.toolCalls[k].id == id;
      assert a.toolCalls[k] in a.toolCalls;
    }
  }

  /** Rewriting messages in place without changing their shape keeps the round form. */
  lemma ShapeKeepsRoundForm(a: seq<Message>, b: seq<Message>)
    requires SameShapes(a, b) && RoundForm(a)
    ensures RoundForm(b)
  {
    forall i, j, id | 0 <= i < |b| && 0 <= j < |b| && Issues(b[i], id) && Issues(b[j], id)
      ensures i == j
    {
      ShapeKeepsIssues(a[i], b[i], id);
      ShapeKeepsIssues(a[j], b[j], id);
    }
    forall j | 0 <= j < |b| && b[j].role == Tool
      ensures exists i: nat :: Owns(b, i, j)
    {
      assert SameShape(a[j], b[j]);
      var i: nat :| Owns(a, i, j);
      ShapeKeepsIssues(a[i], b[i], a[j].toolCallId.value);
      assert forall k :: i < k < j ==> SameShape(a[k], b[k]);
      assert Owns(b, i, j);
    }
  }

  /** A cut in front of a message that is not a result leaves both sides in round form. */
  lemma SuffixRoundForm(ms: seq<Message>, start: nat)
    requires RoundForm(ms) && start <= |ms|
    requires start < |ms| ==> ms[start].role != Tool
    ensures RoundForm(ms[start..])
  {
    var tail := ms[start..];
    forall j | 0 <= j < |tail| && tail[j].role == Tool
      ensures exists i: nat :: Owns(tail, i, j)
    {
      assert tail[j] == ms[start + j];
      var i: nat :| Owns(ms, i, start + j);
      assert i >= start;
      assert tail[i - start] == ms[i];
      assert Owns(tail, i - start, j);
    }
  }

  /** Two round-form lists join to one when they share no call id. */
  lemma JoinRoundForm(a: seq<Message>, b: seq<Message>)
    requires RoundForm(a) && RoundForm(b)
    requires DistinctCallIds(a + b)
    ensures RoundForm(a + b)
  {
    var c := a + b;
    forall j | 0 <= j < |c| && c[j].role == Tool
      ensures exists i: nat :: Owns(c, i, j)
    {
      if j < |a| {
        var i: nat :| Owns(a, i, j);
        assert forall k :: i < k < j ==> c[k] == a[k];
        assert Owns(c, i, j);
      } else {
        var i: nat :| Owns(b, i, j - |a|);
        assert forall k :: |a| + i < k < j ==> c[k] == b[k - |a|];
        assert Owns(c, |a| + i, j);
      }
    }
  }
}
