/** The cursor up to which a history is complete without a gap. */
module ReplayCursor {

  datatype StepState = StepState(idx: int, complete: bool)

  /** The cursor moves over complete steps, passes those it has already covered, and stops at the first
      incomplete one. */
  function Through(steps: seq<StepState>, initial: int): int {
    if steps == [] then initial
    else if steps[0].idx <= initial then Through(steps[1..], initial)
    else if !steps[0].complete then initial
    else Through(steps[1..], steps[0].idx)
  }

  method CompletedHistoryThroughStates(steps: seq<StepState>, initial: int) returns (completedThrough: int)
    ensures completedThrough == Through(steps, initial)
  {
    completedThrough := initial;
    for i := 0 to |steps|
      invariant Through(steps, initial) == Through(steps[i..], completedThrough)
    {
      assert steps[i..][1..] == steps[i + 1..];
      if steps[i].idx <= completedThrough {
        continue;
      }
      if !steps[i].complete {
        break;
      }
      completedThrough := steps[i].idx;
    }
  }

  predicate Sorted(steps: seq<StepState>) {
    forall i, j :: 0 <= i < j < |steps| ==> steps[i].idx < steps[j].idx
  }

  /** The end of the longest complete prefix beyond the initial cursor: it is the initial cursor or a
      step's index, covers complete steps only, and the next step, if there is one, is incomplete. */
  ghost predicate EndsLongestCompletePrefix(steps: seq<StepState>, initial: int, r: int) {
    && initial <= r
    && (r == initial || HasIndex(steps, r))
    && (forall s :: s in steps && initial < s.idx <= r ==> s.complete)
    && (forall s :: s in steps && s.idx > r ==> StopsBy(steps, r, s.idx))
  }

  predicate HasIndex(steps: seq<StepState>, idx: int) {
    exists s :: s in steps && s.idx == idx
  }

  /** There is an incomplete step past `r`, at `idx` or before it. */
  predicate StopsBy(steps: seq<StepState>, r: int, idx: int) {
    exists t :: t in steps && r < t.idx <= idx && !t.complete
  }

  lemma {:induction false} ThroughIsLongestPrefix(steps: seq<StepState>, initial: int)
    requires Sorted(steps)
    ensures EndsLongestCompletePrefix(steps, initial, Through(steps, initial))
  {
    if steps != [] {
      var rest := steps[1..];
      RestLater(steps);
      if steps[0].idx <= initial {
        ThroughIsLongestPrefix(rest, initial);
        Extends(steps, steps[0], rest, initial, initial, Through(rest, initial));
      } else if steps[0].complete {
        ThroughIsLongestPrefix(rest, steps[0].idx);
        Extends(steps, steps[0], rest, initial, steps[0].idx, Through(rest, steps[0].idx));
      } else {
        assert forall s :: s in steps && s.idx > initial ==> StopsBy(steps, initial, s.idx);
      }
    }
  }

  lemma RestLater(steps: seq<StepState>)
    requires steps != [] && Sorted(steps)
    ensures forall s :: s in steps <==> s == steps[0] || s in steps[1..]
    ensures forall s :: s in steps[1..] ==> steps[0].idx < s.idx
  {
    assert steps == [steps[0]] + steps[1..];
    forall s | s in steps[1..] ensures steps[0].idx < s.idx {
      var k :| 0 <= k < |steps[1..]| && steps[1..][k] == s;
      assert steps[k + 1] == s;
    }
  }

  /** One more step in front of a list whose cursor is known. */
  lemma Extends(steps: seq<StepState>, head: StepState, rest: seq<StepState>, initial: int, from: int, r: int)
    requires forall s :: s in steps <==> s == head || s in rest
    requires forall s :: s in rest ==> head.idx < s.idx
    requires if head.idx <= initial then from == initial else head.complete && from == head.idx
    requires EndsLongestCompletePrefix(rest, from, r)
    ensures EndsLongestCompletePrefix(steps, initial, r)
  {
    assert r == initial || HasIndex(steps, r) by {
      if r == head.idx {
        assert head in steps;
      } else if r != initial {
        assert HasIndex(rest, r);
      }
    }
    forall s | s in steps && s.idx > r ensures StopsBy(steps, r, s.idx) {
      assert StopsBy(rest, r, s.idx);
    }
  }

  /** There is only one such cursor, so it does not depend on how it is computed. */
  lemma LongestPrefixIsUnique(steps: seq<StepState>, initial: int, q: int, r: int)
    requires EndsLongestCompletePrefix(steps, initial, q) && EndsLongestCompletePrefix(steps, initial, r)
    ensures q == r
  {
    if q < r {
      NotShorter(steps, initial, q, r);
    } else if r < q {
      NotShorter(steps, initial, r, q);
    }
  }

  lemma NotShorter(steps: seq<StepState>, initial: int, q: int, r: int)
    requires EndsLongestCompletePrefix(steps, initial, q) && EndsLongestCompletePrefix(steps, initial, r)
    ensures q >= r
  {
    assert HasIndex(steps, r) && q < r ==> StopsBy(steps, q, r);
  }

  /** `later` is `steps` some time after: no step has gone or become incomplete, and there may be more. */
  predicate Grown(steps: seq<StepState>, later: seq<StepState>) {
    && |steps| <= |later|
    && forall k :: 0 <= k < |steps| ==> later[k].idx == steps[k].idx && (steps[k].complete ==> later[k].complete)
  }

  /** The cursor never moves back, as more steps complete or when it starts further on. */
  lemma {:induction false} NeverMovesBack(steps: seq<StepState>, later: seq<StepState>, initial: int, start: int)
    requires Grown(steps, later) && initial <= start
    ensures initial <= Through(steps, initial) <= Through(later, start)
  {
    if steps == [] {
      StartsAtInitial(later, start);
    } else {
      StartsAtInitial(later[1..], start);
      if steps[0].idx <= initial {
        NeverMovesBack(steps[1..], later[1..], initial, start);
      } else if steps[0].complete {
        NeverMovesBack(steps[1..], later[1..], steps[0].idx, if steps[0].idx <= start then start else steps[0].idx);
      } else {
        StartsAtInitial(later, start);
      }
    }
  }

  lemma {:induction false} StartsAtInitial(steps: seq<StepState>, initial: int)
    ensures initial <= Through(steps, initial)
  {
    if steps != [] {
      StartsAtInitial(steps[1..], if steps[0].idx <= initial || !steps[0].complete then initial else steps[0].idx);
    }
  }

  function Beyond(steps: seq<StepState>, cursor: int): seq<StepState> {
    if steps == [] then []
    else (if steps[0].idx > cursor then [steps[0]] else []) + Beyond(steps[1..], cursor)
  }

  /** Computing from the steps beyond a cursor, as a subscription that asks for less does, gives the same
      cursor as computing from all of them. */
  lemma {:induction false} OnlyStepsBeyondMatter(steps: seq<StepState>, cursor: int, initial: int)
    requires cursor <= initial
    ensures Through(Beyond(steps, cursor), initial) == Through(steps, initial)
  {
    if steps != [] {
      var rest := steps[1..];
      OnlyStepsBeyondMatter(rest, cursor, initial);
      if steps[0].idx > cursor {
        assert Beyond(steps, cursor)[1..] == Beyond(rest, cursor);
        if steps[0].idx > initial {
          OnlyStepsBeyondMatter(rest, cursor, steps[0].idx);
        }
      } else {
        assert Beyond(steps, cursor) == Beyond(rest, cursor);
      }
    }
  }

  /** What ends the longest complete prefix of the grown list does so from the cursor reached before. */
  lemma EndsFromReached(steps: seq<StepState>, later: seq<StepState>, initial: int, reached: int, r: int)
    requires Sorted(later) && Grown(steps, later) && reached <= r
    requires EndsLongestCompletePrefix(steps, initial, reached) && EndsLongestCompletePrefix(later, initial, r)
    ensures EndsLongestCompletePrefix(later, reached, r)
  {
    assert r != initial ==> HasIndex(later, r);
  }

  /** A subscription resumes: from the cursor reached over the steps of an earlier moment, the steps
      beyond it alone give the cursor that all steps give from the start. */
  lemma ResumesFromReached(steps: seq<StepState>, later: seq<StepState>, initial: int)
    requires Sorted(later) && Grown(steps, later)
    ensures var reached := Through(steps, initial);
      Through(Beyond(later, reached), reached) == Through(later, initial)
  {
    var reached := Through(steps, initial);
    assert Sorted(steps) by {
      forall i, j | 0 <= i < j < |steps| ensures steps[i].idx < steps[j].idx {
        assert later[i].idx < later[j].idx;
      }
    }
    OnlyStepsBeyondMatter(later, reached, reached);
    NeverMovesBack(steps, later, initial, initial);
    ThroughIsLongestPrefix(steps, initial);
    ThroughIsLongestPrefix(later, initial);
    EndsFromReached(steps, later, initial, reached, Through(later, initial));
    ThroughIsLongestPrefix(later, reached);
    LongestPrefixIsUnique(later, reached, Through(later, initial), Through(later, reached));
  }
}
