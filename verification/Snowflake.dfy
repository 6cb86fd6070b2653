/** Identifiers from a clock, a worker number and a counter, printed in base 62. */
module Snowflake {
  import opened Wrappers

  const DECIMALS := "0123456789"
  const CAPITALS := "ABCDEFGHIJKLMNOPQRSTUVWXYZ"
  const SMALLS := "abcdefghijklmnopqrstuvwxyz"
  const DIGITS := DECIMALS + CAPITALS + SMALLS
  const CUSTOM_EPOCH: int := 1_735_689_600_000
  const MAX_WORKER_ID: int := 1023
  const MAX_SEQUENCE: int := 4095

  type WorkerId = w: int | 0 <= w <= MAX_WORKER_ID
  type Sequence = s: int | 0 <= s <= MAX_SEQUENCE

  datatype State = State(lastMs: int, sequence: Sequence)

  const INITIAL := State(-1, 0)

  // ----- The values -----

  /** The bits side by side: the time since the epoch, the worker, the sequence number. */
  function Value(s: State, worker: WorkerId): int {
    (s.lastMs - CUSTOM_EPOCH) * 4194304 + worker * 4096 + s.sequence
  }

  /** The next state, given the first clock reading and the one that ended the wait, if there was one. */
  function Next(s: State, first: int, waited: int): State {
    var now := if first < s.lastMs then s.lastMs else first;
    if now != s.lastMs then State(now, 0)
    else if s.sequence < MAX_SEQUENCE then State(now, s.sequence + 1)
    else State(waited, 0)
  }

  predicate Before(a: State, b: State) {
    a.lastMs < b.lastMs || (a.lastMs == b.lastMs && a.sequence < b.sequence)
  }

  lemma ValueOrder(a: State, b: State, worker: WorkerId)
    ensures Before(a, b) <==> Value(a, worker) < Value(b, worker)
  {
  }

  /** A value gives back its parts, so different workers never share one. */
  lemma ValueIsUnique(a: State, v: WorkerId, b: State, w: WorkerId)
    requires Value(a, v) == Value(b, w)
    ensures a == b && v == w
  {
    assert (a.lastMs - b.lastMs) * 4194304 == (w - v) * 4096 + b.sequence - a.sequence;
    assert a.lastMs == b.lastMs;
    assert (v - w) * 4096 == b.sequence - a.sequence;
  }

  /** The two readings of each call. A wait ends with a reading past the last time used. */
  datatype Reading = Reading(first: int, waited: int)

  function After(s: State, readings: seq<Reading>): State {
    if readings == [] then s
    else
      var n := |readings| - 1;
      Next(After(s, readings[..n]), readings[n].first, readings[n].waited)
  }

  predicate WaitsEnough(s: State, readings: seq<Reading>) {
    forall i: nat :: i < |readings| ==> readings[i].waited > After(s, readings[..i]).lastMs
  }

  lemma {:induction false} LaterIsGreater(s: State, readings: seq<Reading>, i: nat)
    requires WaitsEnough(s, readings) && i < |readings|
    ensures Before(After(s, readings[..i]), After(s, readings))
  {
    var n := |readings| - 1;
    assert readings[..n][..i] == readings[..i];
    assert Before(After(s, readings[..n]), After(s, readings));
    if i < n {
      forall k: nat | k < n ensures readings[..n][k].waited > After(s, readings[..n][..k]).lastMs {
        assert readings[..n][..k] == readings[..k];
      }
      LaterIsGreater(s, readings[..n], i);
    }
  }

  /** Successive values of a worker grow strictly, whatever the clock shows: it may stand still, jump back,
      or exhaust the sequence numbers of a millisecond. */
  lemma ValuesIncrease(readings: seq<Reading>, worker: WorkerId, i: nat, j: nat)
    requires WaitsEnough(INITIAL, readings) && i < j <= |readings|
    ensures Value(After(INITIAL, readings[..i]), worker) < Value(After(INITIAL, readings[..j]), worker)
  {
    var prefix := readings[..j];
    forall k: nat | k < j ensures prefix[k].waited > After(INITIAL, prefix[..k]).lastMs {
      assert prefix[..k] == readings[..k];
    }
    assert prefix[..i] == readings[..i];
    LaterIsGreater(INITIAL, prefix, i);
    ValueOrder(After(INITIAL, prefix[..i]), After(INITIAL, prefix), worker);
  }

  // ----- The time and the number of a value -----

  function Later(a: int, b: int): int {
    if a < b then b else a
  }

  /** How many of the states in front of the last one, the initial one included, have this time. */
  function Used(readings: seq<Reading>, time: int): nat {
    if readings == [] then 0
    else
      var earlier := readings[..|readings| - 1];
      Used(earlier, time) + (if After(INITIAL, earlier).lastMs == time then 1 else 0)
  }

  /** Times never fall, and the number of a value counts the earlier ones of its time. */
  lemma {:induction false} NumbersCount(readings: seq<Reading>, time: int)
    requires WaitsEnough(INITIAL, readings)
    ensures After(INITIAL, readings).sequence == Used(readings, After(INITIAL, readings).lastMs)
    ensures time > After(INITIAL, readings).lastMs ==> Used(readings, time) == 0
  {
    if readings != [] {
      var n := |readings| - 1;
      EnoughBefore(readings);
      NumbersCount(readings[..n], time);
      NumbersCount(readings[..n], After(INITIAL, readings).lastMs);
    }
  }

  lemma EnoughBefore(readings: seq<Reading>)
    requires readings != [] && WaitsEnough(INITIAL, readings)
    ensures var n := |readings| - 1;
      WaitsEnough(INITIAL, readings[..n]) && readings[n].waited > After(INITIAL, readings[..n]).lastMs
  {
    var n := |readings| - 1;
    forall k: nat | k < n ensures readings[..n][k].waited > After(INITIAL, readings[..n][..k]).lastMs {
      assert readings[..n][..k] == readings[..k];
    }
  }

  /** A value carries the clock reading of its call, or the last time used where the clock jumped back; only
      when 4096 values already carry that time does the call wait, and carry the reading that ended the wait. */
  lemma TimeIsReading(readings: seq<Reading>)
    requires readings != [] && WaitsEnough(INITIAL, readings)
    ensures var n := |readings| - 1;
      var now := Later(readings[n].first, After(INITIAL, readings[..n]).lastMs);
      After(INITIAL, readings).lastMs == if Used(readings, now) > MAX_SEQUENCE then readings[n].waited else now
  {
    var n := |readings| - 1;
    EnoughBefore(readings);
    NumbersCount(readings[..n], readings[n].first);
    NumbersCount(readings[..n], After(INITIAL, readings[..n]).lastMs);
  }

  lemma NextIsNotBehind(s: State, r: Reading)
    requires r.waited > s.lastMs
    ensures Next(s, r.first, r.waited).lastMs >= s.lastMs && Next(s, r.first, r.waited).lastMs >= r.first
  {
  }

  /** No value carries a time before the clock reading of its own or of any earlier call. */
  lemma {:induction false} NeverBehindTheClock(readings: seq<Reading>, i: nat)
    requires WaitsEnough(INITIAL, readings) && i < |readings|
    ensures After(INITIAL, readings).lastMs >= readings[i].first
  {
    var n := |readings| - 1;
    EnoughBefore(readings);
    NextIsNotBehind(After(INITIAL, readings[..n]), readings[n]);
    hide Next;
    if i < n {
      assert readings[..n][i] == readings[i];
      NeverBehindTheClock(readings[..n], i);
    }
  }

  // ----- Base 62 -----

  function Base62(n: int): string {
    if n <= 0 then "" else Base62(n / 62) + [DIGITS[n % 62]]
  }

  function ToBase62(value: int): string {
    if value == 0 then "0" else Base62(value)
  }

  function DigitValue(c: char): (d: int) {
    if '0' <= c <= '9' then c as int - '0' as int
    else if 'A' <= c <= 'Z' then c as int - 'A' as int + 10
    else c as int - 'a' as int + 36
  }

  function FromBase62(text: string): int {
    if text == "" then 0 else FromBase62(text[..|text| - 1]) * 62 + DigitValue(text[|text| - 1])
  }

  lemma DigitsDecode(d: nat)
    requires d < 62
    ensures DigitValue(DIGITS[d]) == d
  {
    if d < 10 {
      DecimalsInOrder(d);
      assert DIGITS[d] == DECIMALS[d];
    } else if d < 36 {
      CapitalsInOrder(d - 10);
      assert DIGITS[d] == CAPITALS[d - 10];
    } else {
      SmallsInOrder(d - 36);
      assert DIGITS[d] == SMALLS[d - 36];
    }
  }

  lemma DecimalsInOrder(d: nat)
    requires d < 10
    ensures DECIMALS[d] as int == '0' as int + d
  {
  }

  lemma CapitalsInOrder(d: nat)
    requires d < 26
    ensures CAPITALS[d] as int == 'A' as int + d
  {
  }

  lemma SmallsInOrder(d: nat)
    requires d < 26
    ensures SMALLS[d] as int == 'a' as int + d
  {
  }

  /** Printing has an inverse, so it never gives two values the same text. */
  lemma {:induction false} Base62RoundTrip(n: nat)
    ensures FromBase62(Base62(n)) == n
  {
    if n > 0 {
      Base62RoundTrip(n / 62);
      DigitsDecode(n % 62);
      assert Base62(n)[..|Base62(n)| - 1] == Base62(n / 62);
    }
  }

  lemma RoundTrip(value: nat)
    ensures FromBase62(ToBase62(value)) == value
  {
    Base62RoundTrip(value);
    if value == 0 {
      assert "0"[..0] == "";
      DigitsDecode(0);
    }
  }

  /** An identifier is empty exactly when its time lies before the epoch. */
  lemma EmptyIffBeforeEpoch(s: State, worker: WorkerId)
    ensures ToBase62(Value(s, worker)) == "" <==> s.lastMs < CUSTOM_EPOCH
  {
  }

  /** Identifiers of one worker differ from each other unless both come from before the epoch. */
  lemma IdentifiersDiffer(readings: seq<Reading>, worker: WorkerId, i: nat, j: nat)
    requires WaitsEnough(INITIAL, readings) && i < j <= |readings|
    ensures var a, b := After(INITIAL, readings[..i]), After(INITIAL, readings[..j]);
      ToBase62(Value(a, worker)) != ToBase62(Value(b, worker)) <==> b.lastMs >= CUSTOM_EPOCH
  {
    var a, b := After(INITIAL, readings[..i]), After(INITIAL, readings[..j]);
    ValuesIncrease(readings, worker, i, j);
    EmptyIffBeforeEpoch(a, worker);
    EmptyIffBeforeEpoch(b, worker);
    if a.lastMs >= CUSTOM_EPOCH {
      RoundTrip(Value(a, worker));
    }
    if b.lastMs >= CUSTOM_EPOCH {
      RoundTrip(Value(b, worker));
    }
    ValueOrder(a, b, worker);
  }

  /** Identifiers of different workers differ, unless both come from before the epoch. */
  lemma WorkersDiffer(a: State, v: WorkerId, b: State, w: WorkerId)
    requires v != w
    ensures ToBase62(Value(a, v)) == ToBase62(Value(b, w)) <==> a.lastMs < CUSTOM_EPOCH && b.lastMs < CUSTOM_EPOCH
  {
    EmptyIffBeforeEpoch(a, v);
    EmptyIffBeforeEpoch(b, w);
    if a.lastMs >= CUSTOM_EPOCH && b.lastMs >= CUSTOM_EPOCH {
      RoundTrip(Value(a, v));
      RoundTrip(Value(b, w));
      if Value(a, v) == Value(b, w) {
        ValueIsUnique(a, v, b, w);
      }
    }
  }

  // ----- The generator as it runs -----

  /** A clock shows arbitrary times; all that is assumed is that it passes any given time in the end. */
  class Clock {
    const readings: nat -> int
    var next: nat

    ghost predicate Passes(n: nat, t: int) {
      exists m: nat :: m >= n && readings(m) > t
    }

    ghost predicate Advances() {
      forall n: nat, t: int :: Passes(n, t)
    }

    constructor (readings: nat -> int)
      ensures this.readings == readings && next == 0
    {
      this.readings, next := readings, 0;
    }

    method Now() returns (now: int)
      modifies this
      ensures now == readings(old(next)) && next == old(next) + 1
    {
      now := readings(next);
      next := next + 1;
    }

    /** The first reading past `current`. */
    method WaitNextMs(current: int) returns (now: int)
      requires Advances()
      modifies this
      ensures now > current && old(next) < next && now == readings(next - 1)
      ensures forall n: nat :: old(next) <= n < next - 1 ==> readings(n) <= current
    {
      assert Passes(next, current);
      ghost var end: nat :| end >= next && readings(end) > current;
      now := Now();
      while now <= current
        invariant old(next) < next <= end + 1 && now == readings(next - 1)
        invariant forall n: nat :: old(next) <= n < next - 1 ==> readings(n) <= current
        decreases end + 1 - next
      {
        now := Now();
      }
    }
  }

  class Generator {
    const clock: Clock
    const worker: WorkerId
    var lastMs: int
    var sequence: Sequence

    ghost function View(): State
      reads this
    {
      State(lastMs, sequence)
    }

    constructor (clock: Clock, worker: WorkerId)
      ensures this.clock == clock && this.worker == worker && View() == INITIAL
    {
      this.clock, this.worker, lastMs, sequence := clock, worker, -1, 0;
    }

    static method Print(value: int) returns (out: string)
      ensures out == ToBase62(value)
    {
      if value == 0 {
        return "0";
      }
      var n := value;
      out := "";
      while n > 0
        invariant Base62(value) == Base62(n) + out
        decreases n
      {
        out := [DIGITS[n % 62]] + out;
        n := n / 62;
      }
    }

    method NewSnowflakeId() returns (id: string, ghost waited: int)
      requires clock.Advances()
      modifies this, clock
      ensures waited > old(lastMs)
      ensures View() == Next(old(View()), clock.readings(old(clock.next)), waited)
      ensures id == ToBase62(Value(View(), worker))
      ensures clock.next > old(clock.next)
      ensures clock.next == old(clock.next) + 1 ==> lastMs == Later(clock.readings(old(clock.next)), old(lastMs))
      ensures clock.next > old(clock.next) + 1 ==>
        clock.readings(old(clock.next)) <= old(lastMs) && old(sequence) == MAX_SEQUENCE
        && lastMs == waited == clock.readings(clock.next - 1)
    {
      var now := clock.Now();
      waited := lastMs + 1;
      if now < lastMs {
        now := lastMs;
      }
      if now == lastMs {
        sequence := (sequence + 1) % 4096;
        if sequence == 0 {
          now := clock.WaitNextMs(lastMs);
          waited := now;
        }
      } else {
        sequence := 0;
      }
      lastMs := now;
      id := Print((now - CUSTOM_EPOCH) * 4194304 + worker * 4096 + sequence);
    }
  }
}
