/** Rebuilding the messages of a thread: which runs are shown, and how a run is cut into user and assistant
    messages. */
module HistoryMessages {
  import opened Wrappers
  import opened Lists

  /** A persisted event, as far as cutting a run depends on it. */
  datatype Event =
    | InputApplied(body: string)
    | UserAnswer(body: string)
    | HistoryUser(messageId: int)
    | Other(body: string)

  datatype StoredUser = StoredUser(id: int, content: string)

  datatype Run = Run(id: string, parent: Option<string>, input: string, users: seq<StoredUser>, events: seq<Event>)

  datatype Message =
    | User(runId: string, content: string, primary: bool, messageId: Option<int>)
    | Assistant(runId: string, events: seq<Event>, last: bool)

  datatype Error = WrongOrder(expected: int, received: int)

  /** Whether the parts of a segment come out empty, so that it gives no message. */
  type Blank = (seq<Event>, bool) -> bool

  predicate IsBoundary(e: Event) {
    e.InputApplied? || e.UserAnswer? || e.HistoryUser?
  }

  // ----- The segments of a run -----

  function Generated(runId: string, u: StoredUser): Message {
    User(runId, u.content, false, Some(u.id))
  }

  function AllGenerated(runId: string, users: seq<StoredUser>): seq<Message> {
    seq(|users|, i requires 0 <= i < |users| => Generated(runId, users[i]))
  }

  /** The rest of a run's events cut into segments, with `segment` begun and `users` still to come. */
  function Cut(runId: string, events: seq<Event>, users: seq<StoredUser>, segment: seq<Event>):
    Result<seq<Message>, Error>
  {
    if events == [] then Ok([Assistant(runId, segment, true)] + AllGenerated(runId, users))
    else
      var e := events[0];
      if !IsBoundary(e) || users == [] then
        Cut(runId, events[1..], users, if e.HistoryUser? then segment else segment + [e])
      else if e.HistoryUser? && e.messageId != users[0].id then Err(WrongOrder(users[0].id, e.messageId))
      else
        var rest := Cut(runId, events[1..], users[1..], []);
        if rest.Err? then rest
        else Ok([Assistant(runId, if e.UserAnswer? then segment + [e] else segment, false), Generated(runId, users[0])]
                + rest.value)
  }

  function Primary(run: Run): Message {
    if run.users == [] then User(run.id, run.input, true, None)
    else User(run.id, run.users[0].content, true, Some(run.users[0].id))
  }

  function Later(users: seq<StoredUser>): seq<StoredUser> {
    if users == [] then [] else users[1..]
  }

  /** A segment without parts gives no message. */
  function Shown(blank: Blank, messages: seq<Message>): seq<Message> {
    if messages == [] then []
    else
      var m := messages[|messages| - 1];
      Shown(blank, messages[..|messages| - 1]) + (if m.Assistant? && blank(m.events, m.last) then [] else [m])
  }

  function RunMessages(blank: Blank, run: Run): Result<seq<Message>, Error> {
    var rest := Cut(run.id, run.events, Later(run.users), []);
    if rest.Err? then rest else Ok(Shown(blank, [Primary(run)] + rest.value))
  }

  function UsersOf(messages: seq<Message>): seq<Message> {
    if messages == [] then []
    else UsersOf(messages[..|messages| - 1]) + (if messages[|messages| - 1].User? then [messages[|messages| - 1]] else [])
  }

  function EventsOf(messages: seq<Message>): seq<Event> {
    if messages == [] then []
    else
      EventsOf(messages[..|messages| - 1]) +
      (if messages[|messages| - 1].Assistant? then messages[|messages| - 1].events else [])
  }

  /** The events left in segments: all but the persisted user messages, and but the applied inputs that
      stand for one of the next `n` stored user messages. */
  function Left(events: seq<Event>, n: nat): seq<Event> {
    if events == [] then []
    else
      var e := events[0];
      if n > 0 && IsBoundary(e) then (if e.UserAnswer? then [e] else []) + Left(events[1..], n - 1)
      else (if e.HistoryUser? then [] else [e]) + Left(events[1..], n)
  }

  /** The persisted user messages among the boundaries name the stored ones in order. */
  predicate InOrder(events: seq<Event>, users: seq<StoredUser>) {
    events == [] || users == [] ||
    (if IsBoundary(events[0])
     then (events[0].HistoryUser? ==> events[0].messageId == users[0].id) && InOrder(events[1..], users[1..])
     else InOrder(events[1..], users))
  }

  function UserOf(m: Message): seq<Message> {
    if m.User? then [m] else []
  }

  function EventsIn(m: Message): seq<Event> {
    if m.Assistant? then m.events else []
  }

  lemma OfSnoc(messages: seq<Message>, m: Message)
    ensures UsersOf(messages + [m]) == UsersOf(messages) + UserOf(m)
    ensures EventsOf(messages + [m]) == EventsOf(messages) + EventsIn(m)
  {
    assert (messages + [m])[..|messages|] == messages;
  }

  lemma OfNone()
    ensures UsersOf([]) == [] && EventsOf([]) == []
  {
  }

  lemma {:induction false} UsersOfAppend(a: seq<Message>, b: seq<Message>)
    ensures UsersOf(a + b) == UsersOf(a) + UsersOf(b)
    ensures EventsOf(a + b) == EventsOf(a) + EventsOf(b)
  {
    hide UsersOf, EventsOf, UserOf, EventsIn;
    if b == [] {
      OfNone();
      assert a + b == a;
    } else {
      var c, m := b[..|b| - 1], b[|b| - 1];
      UsersOfAppend(a, c);
      OfSnoc(a + c, m);
      OfSnoc(c, m);
      assert b == c + [m] && a + b == (a + c) + [m];
    }
  }

  lemma UsersOfLast(runId: string, segment: seq<Event>)
    ensures UsersOf([Assistant(runId, segment, true)]) == [] && EventsOf([Assistant(runId, segment, true)]) == segment
  {
  }

  lemma UsersOfPair(runId: string, segment: seq<Event>, u: StoredUser)
    ensures UsersOf([Assistant(runId, segment, false), Generated(runId, u)]) == [Generated(runId, u)]
    ensures EventsOf([Assistant(runId, segment, false), Generated(runId, u)]) == segment
  {
    assert [Assistant(runId, segment, false), Generated(runId, u)]
        == [Assistant(runId, segment, false)] + [Generated(runId, u)];
    UsersOfAppend([Assistant(runId, segment, false)], [Generated(runId, u)]);
  }

  lemma {:induction false} UsersOfGenerated(runId: string, users: seq<StoredUser>)
    ensures UsersOf(AllGenerated(runId, users)) == AllGenerated(runId, users)
    ensures EventsOf(AllGenerated(runId, users)) == []
  {
    if users != [] {
      var init := users[..|users| - 1];
      UsersOfGenerated(runId, init);
      assert AllGenerated(runId, users)[..|users| - 1] == AllGenerated(runId, init);
      assert AllGenerated(runId, users) == AllGenerated(runId, init) + [Generated(runId, users[|users| - 1])];
    }
  }

  lemma {:induction false} ShownAppend(blank: Blank, a: seq<Message>, b: seq<Message>)
    ensures Shown(blank, a + b) == Shown(blank, a) + Shown(blank, b)
  {
    if b == [] {
      assert a + b == a;
    } else {
      ShownAppend(blank, a, b[..|b| - 1]);
      assert (a + b)[..|a + b| - 1] == a + b[..|b| - 1];
    }
  }

  lemma {:induction false} ShowsAllUsers(blank: Blank, messages: seq<Message>)
    ensures UsersOf(Shown(blank, messages)) == UsersOf(messages)
  {
    if messages != [] {
      var init, m := messages[..|messages| - 1], messages[|messages| - 1];
      ShowsAllUsers(blank, init);
      if m.Assistant? && blank(m.events, m.last) {
        assert Shown(blank, messages) == Shown(blank, init) && UsersOf(messages) == UsersOf(init);
      } else {
        UsersOfAppend(Shown(blank, init), [m]);
        UsersOfAppend(init, [m]);
        assert messages == init + [m];
      }
    }
  }

  /** Cutting succeeds exactly when the persisted user messages come in their stored order; it then emits
      the stored users once each in that order, and the segments hold, one after the other, exactly the
      events that are left. */
  lemma {:induction false} CutLosesNothing(runId: string, events: seq<Event>, users: seq<StoredUser>, segment: seq<Event>)
    ensures var r := Cut(runId, events, users, segment);
      && (r.Ok? <==> InOrder(events, users))
      && (r.Ok? ==> UsersOf(r.value) == AllGenerated(runId, users) && EventsOf(r.value) == segment + Left(events, |users|))
  {
    if events == [] {
      LastSegment(runId, users, segment);
    } else {
      hide UsersOf, EventsOf, AllGenerated, Cut, InOrder, Left;
      var e := events[0];
      CutStepMeans(runId, events, users, segment);
      if !IsBoundary(e) || users == [] {
        var grown := if e.HistoryUser? then segment else segment + [e];
        CutLosesNothing(runId, events[1..], users, grown);
        GrownSegment(segment, e, Left(events[1..], |users|));
      } else {
        CutLosesNothing(runId, events[1..], users[1..], []);
        if Cut(runId, events[1..], users[1..], []).Ok? {
          ClosedSegment(runId, segment, e, users, Cut(runId, events[1..], users[1..], []).value, Left(events[1..], |users| - 1));
        }
      }
    }
  }

  lemma LastSegment(runId: string, users: seq<StoredUser>, segment: seq<Event>)
    ensures var messages := [Assistant(runId, segment, true)] + AllGenerated(runId, users);
      UsersOf(messages) == AllGenerated(runId, users) && EventsOf(messages) == segment + []
  {
    hide UsersOf, EventsOf, AllGenerated;
    UsersOfGenerated(runId, users);
    UsersOfLast(runId, segment);
    UsersOfAppend([Assistant(runId, segment, true)], AllGenerated(runId, users));
  }

  /** What cutting, the order test and the leftovers do with the next event. */
  lemma CutStepMeans(runId: string, events: seq<Event>, users: seq<StoredUser>, segment: seq<Event>)
    requires events != []
    ensures var e, more := events[0], events[1..];
      var r := Cut(runId, events, users, segment);
      if !IsBoundary(e) || users == [] then
        && r == Cut(runId, more, users, if e.HistoryUser? then segment else segment + [e])
        && (InOrder(events, users) <==> InOrder(more, users))
        && Left(events, |users|) == (if e.HistoryUser? then [] else [e]) + Left(more, |users|)
      else
        var rest := Cut(runId, more, users[1..], []);
        var closed := if e.UserAnswer? then segment + [e] else segment;
        var fits := e.HistoryUser? ==> e.messageId == users[0].id;
        && (r.Ok? <==> fits && rest.Ok?) && (InOrder(events, users) <==> fits && InOrder(more, users[1..]))
        && Left(events, |users|) == (if e.UserAnswer? then [e] else []) + Left(more, |users| - 1)
        && (r.Ok? ==> r.value == [Assistant(runId, closed, false), Generated(runId, users[0])] + rest.value)
  {
    hide Left;
    if users == [] {
      AlwaysInOrder(events);
      AlwaysInOrder(events[1..]);
    }
    LeftStep(events, |users|);
  }

  lemma LeftStep(events: seq<Event>, n: nat)
    requires events != []
    ensures var e, more := events[0], events[1..];
      if n > 0 && IsBoundary(e) then Left(events, n) == (if e.UserAnswer? then [e] else []) + Left(more, n - 1)
      else Left(events, n) == (if e.HistoryUser? then [] else [e]) + Left(more, n)
  {
  }

  lemma GrownSegment(segment: seq<Event>, e: Event, left: seq<Event>)
    ensures (segment + [e]) + left == segment + ([e] + left) && segment + ([] + left) == segment + left
  {
  }

  lemma ClosedSegment(runId: string, segment: seq<Event>, e: Event, users: seq<StoredUser>, rest: seq<Message>, left: seq<Event>)
    requires users != [] && UsersOf(rest) == AllGenerated(runId, users[1..]) && EventsOf(rest) == [] + left
    ensures var closed := if e.UserAnswer? then segment + [e] else segment;
      var messages := [Assistant(runId, closed, false), Generated(runId, users[0])] + rest;
      && UsersOf(messages) == AllGenerated(runId, users)
      && EventsOf(messages) == segment + ((if e.UserAnswer? then [e] else []) + left)
  {
    hide UsersOf, EventsOf;
    var closed := if e.UserAnswer? then segment + [e] else segment;
    UsersOfAppend([Assistant(runId, closed, false), Generated(runId, users[0])], rest);
    UsersOfPair(runId, closed, users[0]);
    assert AllGenerated(runId, users) == [Generated(runId, users[0])] + AllGenerated(runId, users[1..]);
    GrownSegment(segment, e, left);
  }

  lemma AlwaysInOrder(events: seq<Event>)
    ensures InOrder(events, [])
  {
  }

  /** A run is shown, if it is shown at all, with all its stored user messages once each, in stored order. */
  lemma RunShowsItsUsers(blank: Blank, run: Run)
    ensures RunMessages(blank, run).Ok? <==> InOrder(run.events, Later(run.users))
    ensures RunMessages(blank, run).Ok? ==>
      UsersOf(RunMessages(blank, run).value) == [Primary(run)] + AllGenerated(run.id, Later(run.users))
  {
    hide Cut, InOrder, Shown, UsersOf, EventsOf, Left, AllGenerated;
    var rest := Cut(run.id, run.events, Later(run.users), []);
    CutLosesNothing(run.id, run.events, Later(run.users), []);
    if rest.Ok? {
      ShowsAllUsers(blank, [Primary(run)] + rest.value);
      UsersOfAppend([Primary(run)], rest.value);
      PrimaryAlone(run);
    }
  }

  lemma PrimaryAlone(run: Run)
    ensures UsersOf([Primary(run)]) == [Primary(run)]
  {
  }

  // ----- Where each user message stands -----

  function BoundariesIn(events: seq<Event>): nat {
    if events == [] then 0 else (if IsBoundary(events[0]) then 1 else 0) + BoundariesIn(events[1..])
  }

  /** The stored user message that belongs to the boundary at `p` comes right behind the segment that the
      boundary ends: in front of it stand the earlier ones and exactly the events up to the boundary. */
  predicate StandsAt(runId: string, events: seq<Event>, users: seq<StoredUser>, segment: seq<Event>,
                     messages: seq<Message>, p: nat)
    requires p < |events| && BoundariesIn(events[..p]) < |users|
  {
    var k := BoundariesIn(events[..p]);
    && 2 * k + 1 < |messages| && messages[2 * k + 1] == Generated(runId, users[k])
    && UsersOf(messages[..2 * k + 1]) == AllGenerated(runId, users[..k])
    && EventsOf(messages[..2 * k + 1]) == segment + Left(events[..p + 1], k + 1)
  }

  lemma {:induction false} UserAtItsBoundary(runId: string, events: seq<Event>, users: seq<StoredUser>,
                                             segment: seq<Event>, p: nat)
    requires Cut(runId, events, users, segment).Ok?
    requires p < |events| && IsBoundary(events[p]) && BoundariesIn(events[..p]) < |users|
    ensures StandsAt(runId, events, users, segment, Cut(runId, events, users, segment).value, p)
  {
    hide StandsAt, UsersOf, EventsOf, Left, InOrder, AllGenerated, Cut;
    var e, more := events[0], events[1..];
    CutStepMeans(runId, events, users, segment);
    if !IsBoundary(e) {
      BoundariesShift(events, p);
      UserAtItsBoundary(runId, more, users, segment + [e], p - 1);
      StandsLater(runId, events, users, segment, Cut(runId, events, users, segment).value, p);
    } else {
      var rest := Cut(runId, more, users[1..], []);
      if p == 0 {
        StandsFirst(runId, events, users, segment, rest.value);
      } else {
        BoundariesShift(events, p);
        UserAtItsBoundary(runId, more, users[1..], [], p - 1);
        StandsBehind(runId, events, users, segment, rest.value, p);
      }
    }
  }

  lemma BoundariesShift(events: seq<Event>, p: nat)
    requires 0 < p < |events|
    ensures BoundariesIn(events[..p]) == (if IsBoundary(events[0]) then 1 else 0) + BoundariesIn(events[1..][..p - 1])
    ensures events[1..][..p - 1] == events[..p][1..] && events[1..][..p] == events[..p + 1][1..]
  {
    var front := events[..p];
    assert front[0] == events[0];
    assert front[1..] == events[1..][..p - 1];
    assert BoundariesIn(front) == (if IsBoundary(front[0]) then 1 else 0) + BoundariesIn(front[1..]);
    assert events[1..][..p] == events[..p + 1][1..];
  }

  lemma StandsLater(runId: string, events: seq<Event>, users: seq<StoredUser>, segment: seq<Event>,
                    messages: seq<Message>, p: nat)
    requires 0 < p < |events| && !IsBoundary(events[0]) && BoundariesIn(events[..p]) < |users|
    requires BoundariesIn(events[1..][..p - 1]) == BoundariesIn(events[..p])
    requires StandsAt(runId, events[1..], users, segment + [events[0]], messages, p - 1)
    ensures StandsAt(runId, events, users, segment, messages, p)
  {
    hide UsersOf, EventsOf, Left, AllGenerated, BoundariesIn;
    var k := BoundariesIn(events[..p]);
    LeftStep(events[..p + 1], k + 1);
    assert events[1..][..p] == events[..p + 1][1..];
    GrownSegment(segment, events[0], Left(events[..p + 1][1..], k + 1));
  }

  lemma StandsFirst(runId: string, events: seq<Event>, users: seq<StoredUser>, segment: seq<Event>, rest: seq<Message>)
    requires events != [] && users != [] && IsBoundary(events[0])
    ensures var closed := if events[0].UserAnswer? then segment + [events[0]] else segment;
      var messages := [Assistant(runId, closed, false), Generated(runId, users[0])] + rest;
      BoundariesIn(events[..0]) == 0 && StandsAt(runId, events, users, segment, messages, 0)
  {
    hide UsersOf, EventsOf, Left;
    var e := events[0];
    var closed := if e.UserAnswer? then segment + [e] else segment;
    var messages := [Assistant(runId, closed, false), Generated(runId, users[0])] + rest;
    assert events[..1] == [e] && [e][1..] == [];
    LeftStep([e], 1);
    NothingLeft();
    assert messages[..1] == [Assistant(runId, closed, false)];
    OneSegment(runId, closed);
    assert AllGenerated(runId, users[..0]) == [];
  }

  lemma NothingLeft()
    ensures Left([], 0) == []
  {
  }

  lemma OneSegment(runId: string, segment: seq<Event>)
    ensures UsersOf([Assistant(runId, segment, false)]) == [] && EventsOf([Assistant(runId, segment, false)]) == segment
  {
  }

  lemma StandsBehind(runId: string, events: seq<Event>, users: seq<StoredUser>, segment: seq<Event>,
                     rest: seq<Message>, p: nat)
    requires 0 < p < |events| && users != [] && IsBoundary(events[0]) && BoundariesIn(events[..p]) < |users|
    requires BoundariesIn(events[1..][..p - 1]) + 1 == BoundariesIn(events[..p])
    requires StandsAt(runId, events[1..], users[1..], [], rest, p - 1)
    ensures var closed := if events[0].UserAnswer? then segment + [events[0]] else segment;
      var messages := [Assistant(runId, closed, false), Generated(runId, users[0])] + rest;
      StandsAt(runId, events, users, segment, messages, p)
  {
    hide UsersOf, EventsOf, Left, AllGenerated, BoundariesIn;
    var e, k := events[0], BoundariesIn(events[..p]);
    var closed := if e.UserAnswer? then segment + [e] else segment;
    var pair := [Assistant(runId, closed, false), Generated(runId, users[0])];
    var front := rest[..2 * k - 1];
    assert (pair + rest)[..2 * k + 1] == pair + front;
    assert users[1..][..k - 1] == users[..k][1..];
    assert events[1..][..p] == events[..p + 1][1..];
    LeftStep(events[..p + 1], k + 1);
    ClosedSegment(runId, segment, e, users[..k], front, Left(events[1..][..p], k));
  }

  lemma {:induction false} ShownExactly(blank: Blank, messages: seq<Message>, keep: set<nat>)
    requires forall i: nat :: i < |messages| ==>
      (i in keep <==> messages[i].User? || !blank(messages[i].events, messages[i].last))
    ensures Shown(blank, messages) == Pick(messages, keep)
  {
    if messages != [] {
      ShownExactly(blank, messages[..|messages| - 1], keep);
    }
  }

  /** The messages of a run before blank ones are left out: the primary one first, then the stored user
      messages, each at its boundary, with all events that are left between them. */
  ghost predicate Laid(run: Run, messages: seq<Message>) {
    var users := Later(run.users);
    && messages != [] && messages[0] == Primary(run)
    && UsersOf(messages[1..]) == AllGenerated(run.id, users)
    && EventsOf(messages[1..]) == Left(run.events, |users|)
    && forall p: nat :: p < |run.events| && IsBoundary(run.events[p]) && BoundariesIn(run.events[..p]) < |users| ==>
         StandsAt(run.id, run.events, users, [], messages[1..], p)
  }

  /** A run that is shown is laid out that way, and of it exactly the segments without parts are left out. */
  lemma RunIsLaidOut(blank: Blank, run: Run) returns (laid: seq<Message>)
    requires RunMessages(blank, run).Ok?
    ensures Laid(run, laid)
    ensures RunMessages(blank, run).value ==
      Pick(laid, set i: nat | i < |laid| && (laid[i].User? || !blank(laid[i].events, laid[i].last)))
  {
    hide Cut, InOrder, Shown, UsersOf, EventsOf, Left, AllGenerated, StandsAt;
    var users := Later(run.users);
    var rest := Cut(run.id, run.events, users, []).value;
    laid := [Primary(run)] + rest;
    assert laid[1..] == rest;
    CutLosesNothing(run.id, run.events, users, []);
    assert [] + Left(run.events, |users|) == Left(run.events, |users|);
    forall p: nat | p < |run.events| && IsBoundary(run.events[p]) && BoundariesIn(run.events[..p]) < |users|
      ensures StandsAt(run.id, run.events, users, [], rest, p)
    {
      UserAtItsBoundary(run.id, run.events, users, [], p);
    }
    ShownExactly(blank, laid, set i: nat | i < |laid| && (laid[i].User? || !blank(laid[i].events, laid[i].last)));
  }

  /** The runs one after the other; the first that cannot be cut is an error. */
  function AllMessages(blank: Blank, runs: seq<Run>): Result<seq<Message>, Error> {
    if runs == [] then Ok([])
    else
      var before := AllMessages(blank, runs[..|runs| - 1]);
      if before.Err? then before
      else
        var own := RunMessages(blank, runs[|runs| - 1]);
        if own.Err? then own else Ok(before.value + own.value)
  }

  // ----- The loop over the events, as it runs -----

  method AppendRun(blank: Blank, run: Run, messages: seq<Message>) returns (r: Result<seq<Message>, Error>)
    ensures var own := RunMessages(blank, run);
      r == if own.Err? then own else Ok(messages + own.value)
  {
    hide Shown, AllGenerated;
    PrimaryIsShown(blank, run);
    var shown := messages + [Primary(run)];
    var users := Later(run.users);
    var generatedIndex := 0;
    var segment: seq<Event> := [];
    ghost var whole := Cut(run.id, run.events, users, []);
    ghost var done: seq<Message> := [Primary(run)];
    for i := 0 to |run.events|
      invariant 0 <= generatedIndex <= |users|
      invariant shown == messages + Shown(blank, done)
      invariant var rest := Cut(run.id, run.events[i..], users[generatedIndex..], segment);
        if rest.Err? then whole == rest else whole.Ok? && [Primary(run)] + whole.value == done + rest.value
    {
      var e := run.events[i];
      assert run.events[i..][1..] == run.events[i + 1..];
      if !IsBoundary(e) || generatedIndex >= |users| {
        if !e.HistoryUser? {
          segment := segment + [e];
        }
        continue;
      }
      if e.UserAnswer? {
        segment := segment + [e];
      }
      var generated := users[generatedIndex];
      assert users[generatedIndex..][1..] == users[generatedIndex + 1..];
      ghost var rest := Cut(run.id, run.events[i + 1..], users[generatedIndex + 1..], []);
      ghost var cut := [Assistant(run.id, segment, false), Generated(run.id, generated)];
      if e.HistoryUser? && e.messageId != generated.id {
        return Err(WrongOrder(generated.id, e.messageId));
      }
      CutStep(blank, done, cut, segment, run.id, generated);
      assert rest.Ok? ==> done + (cut + rest.value) == (done + cut) + rest.value;
      if !blank(segment, false) {
        shown := shown + [Assistant(run.id, segment, false)];
      }
      segment := [];
      generatedIndex := generatedIndex + 1;
      shown := shown + [Generated(run.id, generated)];
      done := done + cut;
    }
    assert run.events[|run.events|..] == [];
    if !blank(segment, true) {
      shown := shown + [Assistant(run.id, segment, true)];
    }
    var left := users[generatedIndex..];
    shown := shown + AllGenerated(run.id, left);
    ShownEnd(blank, done, segment, run.id, left);
    ghost var end := (if blank(segment, true) then [] else [Assistant(run.id, segment, true)]) + AllGenerated(run.id, left);
    assert shown == messages + (Shown(blank, done) + end);
    assert whole.Ok?
        && [Primary(run)] + whole.value == done + ([Assistant(run.id, segment, true)] + AllGenerated(run.id, left));
    r := Ok(shown);
  }

  lemma PrimaryIsShown(blank: Blank, run: Run)
    ensures Shown(blank, [Primary(run)]) == [Primary(run)]
  {
  }

  lemma CutStep(blank: Blank, done: seq<Message>, cut: seq<Message>, segment: seq<Event>, runId: string, u: StoredUser)
    requires cut == [Assistant(runId, segment, false), Generated(runId, u)]
    ensures Shown(blank, done + cut) ==
      Shown(blank, done) + (if blank(segment, false) then [] else [cut[0]]) + [cut[1]]
  {
    hide Shown;
    ShownSegment(blank, runId, segment, false);
    ShownUser(blank, cut[1]);
    assert done + cut == (done + [cut[0]]) + [cut[1]];
    ShownAppend(blank, done + [cut[0]], [cut[1]]);
    ShownAppend(blank, done, [cut[0]]);
  }

  lemma ShownSegment(blank: Blank, runId: string, segment: seq<Event>, last: bool)
    ensures Shown(blank, [Assistant(runId, segment, last)]) ==
      if blank(segment, last) then [] else [Assistant(runId, segment, last)]
  {
  }

  lemma ShownUser(blank: Blank, m: Message)
    requires m.User?
    ensures Shown(blank, [m]) == [m]
  {
  }

  lemma {:induction false} ShownUsers(blank: Blank, runId: string, users: seq<StoredUser>)
    ensures Shown(blank, AllGenerated(runId, users)) == AllGenerated(runId, users)
  {
    if users != [] {
      var init := users[..|users| - 1];
      ShownUsers(blank, runId, init);
      assert AllGenerated(runId, users)[..|users| - 1] == AllGenerated(runId, init);
      assert AllGenerated(runId, users) == AllGenerated(runId, init) + [Generated(runId, users[|users| - 1])];
    }
  }

  lemma ShownEnd(blank: Blank, done: seq<Message>, segment: seq<Event>, runId: string, users: seq<StoredUser>)
    ensures Shown(blank, done + ([Assistant(runId, segment, true)] + AllGenerated(runId, users))) ==
      Shown(blank, done) +
      ((if blank(segment, true) then [] else [Assistant(runId, segment, true)]) + AllGenerated(runId, users))
  {
    hide Shown, AllGenerated;
    ShownSegment(blank, runId, segment, true);
    ShownAppend(blank, done, [Assistant(runId, segment, true)] + AllGenerated(runId, users));
    ShownAppend(blank, [Assistant(runId, segment, true)], AllGenerated(runId, users));
    ShownUsers(blank, runId, users);
  }

  /** The messages of all runs in turn; the first run whose messages are out of order ends it. */
  method AppendRuns(blank: Blank, runs: seq<Run>) returns (r: Result<seq<Message>, Error>)
    ensures r == AllMessages(blank, runs)
  {
    var messages: seq<Message> := [];
    for i := 0 to |runs|
      invariant AllMessages(blank, runs[..i]) == Ok(messages)
    {
      assert runs[..i + 1][..i] == runs[..i];
      var own := AppendRun(blank, runs[i], messages);
      if own.Err? {
        StaysBroken(blank, runs, i + 1);
        return own;
      }
      messages := own.value;
    }
    assert runs[..|runs|] == runs;
    r := Ok(messages);
  }

  lemma {:induction false} StaysBroken(blank: Blank, runs: seq<Run>, i: nat)
    requires i <= |runs| && AllMessages(blank, runs[..i]).Err?
    ensures AllMessages(blank, runs) == AllMessages(blank, runs[..i])
  {
    if i == |runs| {
      assert runs[..i] == runs;
    } else {
      var init := runs[..|runs| - 1];
      assert init[..i] == runs[..i];
      StaysBroken(blank, init, i);
    }
  }

  // ----- The runs on the active path -----

  function ById(runs: seq<Run>): map<string, Run> {
    if runs == [] then map[] else ById(runs[..|runs| - 1])[runs[|runs| - 1].id := runs[|runs| - 1]]
  }

  lemma {:induction false} ByIdHolds(runs: seq<Run>)
    ensures forall id :: id in ById(runs) ==> ById(runs)[id] in runs && ById(runs)[id].id == id
    ensures forall r :: r in runs ==> r.id in ById(runs)
  {
    if runs != [] {
      ByIdHolds(runs[..|runs| - 1]);
    }
  }

  /** Of several runs with an id the last one counts. */
  lemma {:induction false} LastOfIdCounts(runs: seq<Run>, i: nat)
    requires i < |runs| && forall j :: i < j < |runs| ==> runs[j].id != runs[i].id
    ensures runs[i].id in ById(runs) && ById(runs)[runs[i].id] == runs[i]
  {
    if i < |runs| - 1 {
      LastOfIdCounts(runs[..|runs| - 1], i);
    }
  }

  predicate Names(id: Option<string>) {
    id.Some? && id.value != ""
  }

  /** From a run upwards: each next one is the parent, and none comes twice. */
  ghost predicate Upwards(byId: map<string, Run>, start: string, p: seq<Run>) {
    && (forall i :: 0 <= i < |p| ==> p[i].id in byId && byId[p[i].id] == p[i])
    && (p != [] ==> p[0].id == start)
    && (forall i :: 0 < i < |p| ==> p[i - 1].parent == Some(p[i].id) && p[i].id != "")
    && (forall i, j :: 0 <= i < j < |p| ==> p[i].id != p[j].id)
  }

  /** The id that follows on the way up. */
  function NextUp(start: string, p: seq<Run>): Option<string> {
    if p == [] then Some(start) else p[|p| - 1].parent
  }

  /** The way up is over: there is no parent, or the parent was passed already. */
  predicate AtTop(start: string, p: seq<Run>) {
    !Names(NextUp(start, p)) || exists i :: 0 <= i < |p| && p[i].id == NextUp(start, p).value
  }

  /** The way up from a run breaks off at an id that no run has. */
  ghost predicate BreaksOff(byId: map<string, Run>, start: string) {
    exists p :: Upwards(byId, start, p) && Names(NextUp(start, p)) && NextUp(start, p).value !in byId
  }

  function Reversed(p: seq<Run>): seq<Run> {
    if p == [] then [] else [p[|p| - 1]] + Reversed(p[..|p| - 1])
  }

  /** `r` is the way up `p` read from its top down. */
  predicate OldestFirst(p: seq<Run>, r: seq<Run>) {
    |r| == |p| && forall k :: 0 <= k < |p| ==> r[k] == p[|p| - 1 - k]
  }

  lemma {:induction false} ReversedIsOldestFirst(p: seq<Run>)
    ensures OldestFirst(p, Reversed(p))
  {
    if p != [] {
      ReversedIsOldestFirst(p[..|p| - 1]);
    }
  }

  /** Without an active run all runs are shown. Otherwise it is the active run and its ancestors, the oldest
      first - or all runs again, if the way up breaks off at a run that is not there. */
  method ActivePathRuns(runs: seq<Run>, active: Option<string>) returns (r: seq<Run>)
    ensures !Names(active) ==> r == runs
    ensures Names(active) ==>
      || (r == runs && BreaksOff(ById(runs), active.value))
      || exists p :: Upwards(ById(runs), active.value, p) && p != [] && AtTop(active.value, p) && OldestFirst(p, r)
  {
    if !Names(active) {
      return runs;
    }
    var byId := ById(runs);
    var path: seq<Run> := [];
    var seen: set<string> := {};
    var cursor := active;
    ByIdHolds(runs);
    NoStepYet(byId, active.value);
    hide ById, Upwards, NextUp, AtTop, BreaksOff, OldestFirst, Reversed;
    while Names(cursor)
      invariant Upwards(byId, active.value, path) && cursor == NextUp(active.value, path)
      invariant seen == Ids(path) && seen <= byId.Keys
      decreases byId.Keys - seen
    {
      if cursor.value in seen {
        break;
      }
      if cursor.value !in byId {
        BreaksOffThere(byId, active.value, path);
        return runs;
      }
      var run := byId[cursor.value];
      OneStepUp(byId, active.value, path, run);
      seen := seen + {cursor.value};
      path := path + [run];
      cursor := run.parent;
    }
    TopReached(active.value, path);
    r := Reversed(path);
    ReversedIsOldestFirst(path);
  }

  function Ids(p: seq<Run>): set<string> {
    set r | r in p :: r.id
  }

  lemma NoStepYet(byId: map<string, Run>, start: string)
    ensures Upwards(byId, start, []) && NextUp(start, []) == Some(start) && Ids([]) == {}
  {
  }

  lemma OneStepUp(byId: map<string, Run>, start: string, p: seq<Run>, run: Run)
    requires Upwards(byId, start, p) && Names(NextUp(start, p)) && run.id == NextUp(start, p).value && run.id !in Ids(p)
    requires run.id in byId && byId[run.id] == run
    ensures Upwards(byId, start, p + [run]) && NextUp(start, p + [run]) == run.parent
    ensures Ids(p + [run]) == Ids(p) + {run.id}
  {
  }

  lemma BreaksOffThere(byId: map<string, Run>, start: string, p: seq<Run>)
    requires Upwards(byId, start, p) && Names(NextUp(start, p)) && NextUp(start, p).value !in byId
    ensures BreaksOff(byId, start)
  {
  }

  lemma TopReached(start: string, p: seq<Run>)
    requires Names(NextUp(start, p)) ==> NextUp(start, p).value in Ids(p)
    requires Names(Some(start))
    ensures AtTop(start, p) && p != []
  {
    if Names(NextUp(start, p)) {
      var passed :| passed in p && passed.id == NextUp(start, p).value;
    }
  }

  /** There is only one way up, so what is shown is determined: either the whole list or that path. */
  lemma {:induction false} OneWayUp(byId: map<string, Run>, start: string, p: seq<Run>, q: seq<Run>)
    requires Upwards(byId, start, p) && Upwards(byId, start, q) && |p| <= |q|
    ensures p == q[..|p|]
  {
    if p != [] {
      var n := |p| - 1;
      assert Upwards(byId, start, p[..n]);
      OneWayUp(byId, start, p[..n], q);
      if n > 0 {
        assert p[n - 1] == q[n - 1];
      }
      assert p[n].id == q[n].id;
      assert byId[p[n].id] == p[n] && byId[q[n].id] == q[n];
    }
  }

  /** Past its top a way up cannot go on. */
  lemma TopIsTheEnd(byId: map<string, Run>, start: string, p: seq<Run>, q: seq<Run>)
    requires Upwards(byId, start, p) && p != [] && AtTop(start, p) && Upwards(byId, start, q)
    ensures |q| <= |p|
  {
    if |p| <= |q| {
      OneWayUp(byId, start, p, q);
      assert q[|p| - 1] == p[|p| - 1];
      assert forall i :: 0 <= i < |p| ==> q[i] == p[i];
      assert |p| < |q| ==> NextUp(start, p) == Some(q[|p|].id);
    }
  }

  /** A way up that reaches its top does not break off. */
  lemma TopOrBreak(byId: map<string, Run>, start: string, p: seq<Run>)
    requires Upwards(byId, start, p) && p != [] && AtTop(start, p)
    ensures !BreaksOff(byId, start)
  {
    forall q: seq<Run> | Upwards(byId, start, q) && Names(NextUp(start, q)) ensures NextUp(start, q).value in byId {
      TopIsTheEnd(byId, start, p, q);
      OneWayUp(byId, start, q, p);
      if |q| < |p| {
        assert q != [] ==> q[|q| - 1] == p[|q| - 1];
        assert NextUp(start, q) == Some(p[|q|].id);
      } else {
        assert q == p;
      }
    }
  }
}
