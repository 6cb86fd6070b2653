/** What compaction keeps about the messages themselves: they stay distinct, and only assistant turns call
    tools. */
module Identities {
  import opened Wrappers
  import opened Messages
  import opened Lists
  import opened Compaction
  import opened Cascade

  predicate OnlyTurnsCall(ms: seq<Message>) {
    forall i :: 0 <= i < |ms| && ms[i].toolCalls != [] ==> ms[i].role == Assistant
  }

  predicate FreshTag(ms: seq<Message>, tag: nat) {
    forall i :: 0 <= i < |ms| ==> ms[i].tag != tag
  }

  /** The messages of `b` are distinct, and are those of `a` but for one that carries `tag`; calls stay with
      assistant turns. */
  ghost predicate KeepsIdentities(a: seq<Message>, b: seq<Message>, tag: nat) {
    && DistinctTags(b)
    && (OnlyTurnsCall(a) ==> OnlyTurnsCall(b))
    && forall t :: FreshTag(a, t) && t != tag ==> FreshTag(b, t)
  }

  lemma ShapesKeepIdentities(a: seq<Message>, b: seq<Message>, tag: nat)
    requires SameShapes(a, b) && DistinctTags(a)
    ensures KeepsIdentities(a, b, tag)
    ensures FreshTag(a, tag) ==> FreshTag(b, tag)
  {
    assert forall k :: 0 <= k < |a| ==> SameShape(a[k], b[k]);
  }

  lemma {:induction false} PickKeepsIdentities(ms: seq<Message>, keep: set<nat>, tag: nat)
    requires DistinctTags(ms)
    ensures KeepsIdentities(ms, Pick(ms, keep), tag)
    ensures FreshTag(ms, tag) ==> FreshTag(Pick(ms, keep), tag)
  {
    if ms != [] {
      var n := |ms| - 1;
      var init := ms[..n];
      assert DistinctTags(init) && FreshTag(init, ms[n].tag);
      PickKeepsIdentities(init, keep, ms[n].tag);
      PickKeepsIdentities(init, keep, tag);
      forall t | FreshTag(ms, t) ensures FreshTag(Pick(ms, keep), t) {
        assert FreshTag(init, t);
        assert ms[n].tag != t;
        PickKeepsIdentities(init, keep, t);
      }
    }
  }

  /** A message with a new tag may go anywhere, if it calls tools only as an assistant turn. */
  lemma SnocKeepsIdentities(ms: seq<Message>, m: Message)
    requires DistinctTags(ms) && FreshTag(ms, m.tag) && (m.toolCalls != [] ==> m.role == Assistant)
    ensures KeepsIdentities(ms, ms + [m], m.tag)
  {
  }

  lemma InsertKeepsIdentities(ms: seq<Message>, lo: nat, hi: nat, m: Message)
    requires lo <= hi <= |ms| && DistinctTags(ms) && FreshTag(ms, m.tag) && m.toolCalls == []
    ensures KeepsIdentities(ms, ms[..lo] + [m] + ms[hi..], m.tag)
  {
    var out := ms[..lo] + [m] + ms[hi..];
    forall i | 0 <= i < |out| ensures out[i] == if i < lo then ms[i] else if i == lo then m else ms[hi + (i - lo - 1)] {}
  }

  lemma IdentitiesCompose(a: seq<Message>, b: seq<Message>, c: seq<Message>, tag: nat)
    requires KeepsIdentities(a, b, tag) && KeepsIdentities(b, c, tag)
    ensures KeepsIdentities(a, c, tag)
  {
  }

  lemma MaskAllShapes(ws: seq<Work>, keepRecent: int, force: set<string>)
    ensures SameShapes(Msgs(ws), Msgs(MaskAll(ws, keepRecent, force)))
  {
    hide MaskMessage;
  }

  lemma SummaryStageIdentities(ws: seq<Work>, env: Env, l3: Option<string>)
    requires DistinctTags(Msgs(ws)) && FreshTag(Msgs(ws), env.summaryTag)
    requires RangeOf(ws, env).Some? ==> l3.Some?
    ensures var b := Msgs(AfterSummary(ws, env, l3));
      && KeepsIdentities(Msgs(ws), b, env.summaryTag)
      && (RangeOf(ws, env).None? ==> FreshTag(b, env.summaryTag))
  {
    hide DistinctTags, OnlyTurnsCall, FreshTag, KeepsIdentities, MaskMessage, L3Range, Splice, MaskAll;
    var a := MaskAll(ws, env.keepRecent, env.force);
    MaskAllShapes(ws, env.keepRecent, env.force);
    ShapesKeepIdentities(Msgs(ws), Msgs(a), env.summaryTag);
    var range := RangeOf(ws, env);
    if range.Some? {
      var c := range.value;
      var m := SummaryMessage(env, l3.value);
      InsertKeepsIdentities(Msgs(a), c.start, c.end, m);
      MsgsOfSplice(a, c, m);
      IdentitiesCompose(Msgs(ws), Msgs(a), Msgs(Splice(a, c, m)), env.summaryTag);
    }
  }

  lemma RoundStageIdentities(ws: seq<Work>, start: nat, env: Env, body: string)
    requires start <= |ws| && DistinctTags(Msgs(ws)) && FreshTag(Msgs(ws), env.summaryTag)
    ensures KeepsIdentities(Msgs(ws), Msgs(MaskRound(ws, start, RoundSummary(env, body))), env.summaryTag)
  {
    hide DistinctTags, OnlyTurnsCall, FreshTag, MaskRoundMessage;
    var m := RoundSummary(env, body);
    var out := Msgs(MaskRound(ws, start, m));
    var masked := out[..|ws|];
    assert SameShapes(Msgs(ws), masked);
    ShapesKeepIdentities(Msgs(ws), masked, env.summaryTag);
    SnocKeepsIdentities(masked, m);
    assert out == masked + [m];
    IdentitiesCompose(Msgs(ws), masked, out, env.summaryTag);
  }

  /** Compaction keeps messages distinct, and brings in at most the summary. */
  lemma CascadeKeepsIdentities(ws: seq<Work>, env: Env, l3: Option<string>, round: Option<string>)
    requires DistinctTags(Msgs(ws)) && FreshTag(Msgs(ws), env.summaryTag)
    requires RunCascade(ws, env, l3, round).Compacted?
    ensures KeepsIdentities(Msgs(ws), Msgs(RunCascade(ws, env, l3, round).items), env.summaryTag)
  {
    hide DistinctTags, OnlyTurnsCall, FreshTag, KeepsIdentities, MaskMessage, L3Range, MaskRound, Pick, WindowOf, LatestRound, DbIds;
    if env.est(Msgs(ws)) < env.budget {
      MaskAllShapes(ws, MAX_SAFE_INTEGER, env.force);
      ShapesKeepIdentities(Msgs(ws), Msgs(MaskAll(ws, MAX_SAFE_INTEGER, env.force)), env.summaryTag);
      return;
    }
    var b := AfterSummary(ws, env, l3);
    SummaryStageIdentities(ws, env, l3);
    DistinctOf(Msgs(ws), Msgs(b), env.summaryTag);
    var c := AfterWindow(ws, env, l3);
    MsgsOfPick(b, WindowOf(b, env));
    PickKeepsIdentities(Msgs(b), WindowOf(b, env), env.summaryTag);
    DistinctOf(Msgs(b), Msgs(c), env.summaryTag);
    IdentitiesCompose(Msgs(ws), Msgs(b), Msgs(c), env.summaryTag);
    var recent := RoundToSummarize(c, env, RangeOf(ws, env).Some?);
    if recent.Some? {
      RoundStageIdentities(c, recent.value, env, round.value);
      IdentitiesCompose(Msgs(ws), Msgs(c), Msgs(MaskRound(c, recent.value, RoundSummary(env, round.value))), env.summaryTag);
    }
  }

  lemma DistinctOf(a: seq<Message>, b: seq<Message>, tag: nat)
    requires KeepsIdentities(a, b, tag)
    ensures DistinctTags(b)
  {
  }
}
