/** Tool calls that were interrupted before their result was stored. */
module Recovery {
  import opened Messages

  datatype Interrupted = Interrupted(id: string, name: string, assistant: nat)

  /** The calls of one message without a result in `answered`. */
  function MissingCalls(calls: seq<ToolCall>, assistant: nat, answered: set<string>): seq<Interrupted> {
    if calls == [] then []
    else
      var call := calls[|calls| - 1];
      MissingCalls(calls[..|calls| - 1], assistant, answered) +
      (if call.id in answered then [] else [Interrupted(call.id, call.name, assistant)])
  }

  function MissingIn(ms: seq<Message>, answered: set<string>): seq<Interrupted> {
    if ms == [] then []
    else
      MissingIn(ms[..|ms| - 1], answered) + MissingCalls(ms[|ms| - 1].toolCalls, ms[|ms| - 1].tag, answered)
  }

  function ResultIds(ms: seq<Message>): (r: set<string>)
    ensures forall id :: id in r <==> Answered(ms, id)
  {
    set m | m in ms && m.role == Tool && m.toolCallId.Some? && m.toolCallId.value != "" :: m.toolCallId.value
  }

  function Missing(ms: seq<Message>): seq<Interrupted> {
    MissingIn(ms, ResultIds(ms))
  }

  method FindMissingToolResults(ms: seq<Message>) returns (missing: seq<Interrupted>)
    ensures missing == Missing(ms)
  {
    var answered := ResultIds(ms);
    missing := [];
    for i := 0 to |ms|
      invariant missing == MissingIn(ms[..i], answered)
    {
      assert ms[..i + 1][..i] == ms[..i];
      var calls := ms[i].toolCalls;
      for k := 0 to |calls|
        invariant missing == MissingIn(ms[..i], answered) + MissingCalls(calls[..k], ms[i].tag, answered)
      {
        assert calls[..k + 1][..k] == calls[..k];
        if calls[k].id !in answered {
          missing := missing + [Interrupted(calls[k].id, calls[k].name, ms[i].tag)];
        }
      }
      assert calls[..|calls|] == calls;
    }
    assert ms[..|ms|] == ms;
  }

  predicate Reported(missing: seq<Interrupted>, id: string) {
    exists c :: c in missing && c.id == id
  }

  /** Some message carries the call, whatever its role. */
  predicate Carried(ms: seq<Message>, id: string) {
    exists m :: m in ms && HasCall(m.toolCalls, id)
  }

  lemma ReportedInTwo(a: seq<Interrupted>, b: seq<Interrupted>, id: string)
    ensures Reported(a + b, id) <==> Reported(a, id) || Reported(b, id)
  {
    assert forall c :: c in a + b <==> c in a || c in b;
  }

  lemma CarriedInTwo(a: seq<Message>, b: seq<Message>, id: string)
    ensures Carried(a + b, id) <==> Carried(a, id) || Carried(b, id)
  {
    assert forall m :: m in a + b <==> m in a || m in b;
  }

  lemma {:induction false} MissingCallsExactly(calls: seq<ToolCall>, assistant: nat, answered: set<string>, id: string)
    ensures Reported(MissingCalls(calls, assistant, answered), id) <==> HasCall(calls, id) && id !in answered
  {
    if calls != [] {
      var init, last := calls[..|calls| - 1], calls[|calls| - 1];
      MissingCallsExactly(init, assistant, answered, id);
      assert calls == init + [last];
      ReportedInTwo(MissingCalls(init, assistant, answered),
                    if last.id in answered then [] else [Interrupted(last.id, last.name, assistant)], id);
    }
  }

  lemma {:induction false} MissingInExactly(ms: seq<Message>, answered: set<string>, id: string)
    ensures Reported(MissingIn(ms, answered), id) <==> Carried(ms, id) && id !in answered
  {
    if ms != [] {
      var init, last := ms[..|ms| - 1], ms[|ms| - 1];
      MissingInExactly(init, answered, id);
      MissingCallsExactly(last.toolCalls, last.tag, answered, id);
      ReportedInTwo(MissingIn(init, answered), MissingCalls(last.toolCalls, last.tag, answered), id);
      CarriedInTwo(init, [last], id);
      assert ms == init + [last];
    }
  }

  /** A call is reported exactly when some message carries it and no result answers it. */
  lemma MissingExactly(ms: seq<Message>, id: string)
    ensures Reported(Missing(ms), id) <==> Carried(ms, id) && !Answered(ms, id)
  {
    MissingInExactly(ms, ResultIds(ms), id);
  }

  /** Wherever the store puts the results it records, once each reported call has one and nothing else
      with calls was added, nothing is missing any more. */
  lemma RecoveredIsComplete(ms: seq<Message>, recovered: seq<Message>)
    requires forall m :: m in ms ==> m in recovered
    requires forall m :: m in recovered && m !in ms ==> m.toolCalls == []
    requires forall c :: c in Missing(ms) ==> Answered(recovered, c.id)
    ensures Missing(recovered) == []
  {
    forall id ensures !Reported(Missing(recovered), id) {
      MissingExactly(recovered, id);
      MissingExactly(ms, id);
      AnswersStay(ms, recovered, id);
    }
    assert Missing(recovered) != [] ==> Reported(Missing(recovered), Missing(recovered)[0].id);
  }

  lemma AnswersStay(ms: seq<Message>, recovered: seq<Message>, id: string)
    requires forall m :: m in ms ==> m in recovered
    ensures Answered(ms, id) ==> Answered(recovered, id)
  {
    if Answered(ms, id) {
      var j :| 0 <= j < |ms| && Answers(ms[j], id);
      assert ms[j] in recovered;
    }
  }
}
