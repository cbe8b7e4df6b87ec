// The global login/unlock limiter: a fixed window of one minute, thirty
// attempts a window. A call reads the clock twice, once to test the age of the
// window and once to open a new one.
module Limiter {
  import opened Base

  const MINUTE: int := 60_000_000_000
  const LIMIT: nat := 30

  datatype State = State(window: Option<int>, attempts: nat)

  // One call: `since` is the first clock reading, `now` the second.
  datatype Call = Call(since: int, now: int)

  const FRESH: State := State(None, 0)

  // The zero time.Time is further back than any minute.
  predicate Reopens(s: State, c: Call) {
    s.window.None? || c.since - s.window.value > MINUTE
  }

  function Next(s: State, c: Call): State {
    if Reopens(s, c) then State(Some(c.now), 1) else State(s.window, s.attempts + 1)
  }

  predicate Accepts(s: State, c: Call) {
    Next(s, c).attempts <= LIMIT
  }

  class Limiter {
    var window: Option<int>
    var attempts: nat

    function View(): State
      reads this
    {
      State(window, attempts)
    }

    constructor ()
      ensures View() == FRESH
    {
      window, attempts := None, 0;
    }

    method Limit(c: Call) returns (ok: bool)
      modifies this
      ensures View() == Next(old(View()), c)
      ensures ok == Accepts(old(View()), c)
    {
      if window.None? || c.since - window.value > MINUTE {
        window := Some(c.now);
        attempts := 0;
      }
      attempts := attempts + 1;
      ok := attempts <= LIMIT;
    }
  }

  // ---- whole sequences of calls ----

  function After(s: State, calls: seq<Call>): State
    decreases |calls|
  {
    if calls == [] then s else After(Next(s, calls[0]), calls[1..])
  }

  // How many of the calls are accepted.
  function Accepted(s: State, calls: seq<Call>): nat
    decreases |calls|
  {
    if calls == [] then 0
    else (if Accepts(s, calls[0]) then 1 else 0) + Accepted(Next(s, calls[0]), calls[1..])
  }

  // The clock never runs backwards.
  ghost predicate Ordered(calls: seq<Call>) {
    && (forall i :: 0 <= i < |calls| ==> calls[i].since <= calls[i].now)
    && (forall i, j :: 0 <= i < j < |calls| ==> calls[i].now <= calls[j].since)
  }

  function Left(s: State): nat {
    if s.attempts < LIMIT then LIMIT - s.attempts else 0
  }

  // Inside one window nothing is accepted beyond what is left of it.
  lemma {:induction false} WithinWindow(s: State, calls: seq<Call>)
    requires s.window.Some?
    requires forall c :: c in calls ==> c.since - s.window.value <= MINUTE
    ensures Accepted(s, calls) <= Left(s)
    decreases |calls|
  {
    if calls != [] {
      assert calls[0] in calls;
      forall c | c in calls[1..] ensures c in calls {}
      WithinWindow(Next(s, calls[0]), calls[1..]);
    }
  }

  // A window that opens with the first call accepts at most thirty calls
  // until the next one opens.
  lemma WindowBound(s: State, calls: seq<Call>)
    requires calls != [] && Reopens(s, calls[0])
    requires forall i :: 0 < i < |calls| ==> calls[i].since - calls[0].now <= 60_000_000_000
    ensures Accepted(s, calls) <= 30
  {
    var s1 := Next(s, calls[0]);
    forall c | c in calls[1..] ensures c.since - s1.window.value <= MINUTE {
      var i :| 0 <= i < |calls[1..]| && calls[1..][i] == c;
      assert calls[i + 1] == c;
    }
    WithinWindow(s1, calls[1..]);
  }

  // The state after a history: the last call that opened a window, and all
  // calls since, accepted or not. So a call is accepted exactly if it opens a
  // window, a minute of nanoseconds after the one before, or is among the first
  // thirty calls of one.
  lemma {:induction false} AcceptedIff(before: seq<Call>, c: Call) returns (k: nat)
    ensures k <= |before|
    ensures k > 0 ==>
              var s := After(FRESH, before[..k]);
              s.window.Some? && (before + [c])[k].since - s.window.value > 60_000_000_000
    ensures var all := before + [c];
            After(FRESH, all) == State(Some(all[k].now), |all| - k)
            && forall i :: k < i < |all| ==> all[i].since - all[k].now <= 60_000_000_000
    ensures Accepts(After(FRESH, before), c) <==> |before| - k < 30
    decreases |before|
  {
    AfterLast(FRESH, before, c);
    k := |before|;
    if before != [] {
      var most, last := before[..|before| - 1], before[|before| - 1];
      assert before == most + [last];
      var first := AcceptedIff(most, last);
      assert most[..first] == before[..first];
      if !Reopens(After(FRESH, before), c) {
        k := first;
      }
    }
    assert before[..|before|] == before;
  }

  lemma {:induction false} AfterLast(s: State, calls: seq<Call>, c: Call)
    ensures After(s, calls + [c]) == Next(After(s, calls), c)
    decreases |calls|
  {
    if calls != [] {
      assert (calls + [c])[1..] == calls[1..] + [c];
      AfterLast(Next(s, calls[0]), calls[1..], c);
    }
  }

  // A minute meets at most two windows: what is left of the first, and one more.
  lemma {:induction false} TwoWindows(s: State, calls: seq<Call>)
    requires calls != [] && Ordered(calls)
    requires calls[|calls| - 1].since <= calls[0].now + MINUTE
    ensures Accepted(s, calls) <= Left(s) + LIMIT
    decreases |calls|
  {
    if Reopens(s, calls[0]) {
      forall i | 0 < i < |calls| ensures calls[i].since - calls[0].now <= MINUTE {
        assert calls[i].since <= calls[|calls| - 1].since;
      }
      WindowBound(s, calls);
    } else if |calls| > 1 {
      var rest := calls[1..];
      assert rest[|rest| - 1] == calls[|calls| - 1];
      assert calls[0].now <= rest[0].since <= rest[0].now;
      TwoWindows(Next(s, calls[0]), rest);
    } else {
      assert calls[1..] == [];
    }
  }

  // Every stretch of calls that fits in one closed minute, wherever it lies in
  // a longer run, holds at most sixty accepted ones. A call may be dated
  // anywhere between its two clock readings, so a stretch fits as soon as the
  // last call begins within a minute of the end of the first.
  lemma MinuteBound(before: seq<Call>, calls: seq<Call>)
    requires calls != [] && Ordered(before + calls)
    requires calls[|calls| - 1].since <= calls[0].now + 60_000_000_000
    ensures Accepted(After(FRESH, before), calls) <= 60
  {
    var all := before + calls;
    forall i | 0 <= i < |calls| ensures calls[i].since <= calls[i].now {
      assert all[|before| + i] == calls[i];
    }
    forall i, j | 0 <= i < j < |calls| ensures calls[i].now <= calls[j].since {
      assert all[|before| + i] == calls[i] && all[|before| + j] == calls[j];
    }
    TwoWindows(After(FRESH, before), calls);
  }

  function Burst(t: int, n: nat): seq<Call> {
    seq(n, _ => Call(t, t))
  }

  lemma {:induction false} BurstAccepted(s: State, t: int, n: nat)
    requires s.window.Some? && t - s.window.value <= MINUTE
    requires s.attempts + n <= LIMIT
    ensures Accepted(s, Burst(t, n)) == n
    ensures After(s, Burst(t, n)) == State(s.window, s.attempts + n)
    decreases n
  {
    if n > 0 {
      assert Burst(t, n)[1..] == Burst(t, n - 1);
      BurstAccepted(Next(s, Call(t, t)), t, n - 1);
    }
  }

  lemma {:induction false} AcceptedConcat(s: State, a: seq<Call>, b: seq<Call>)
    ensures Accepted(s, a + b) == Accepted(s, a) + Accepted(After(s, a), b)
    decreases |a|
  {
    if a == [] {
      assert a + b == b;
    } else {
      assert (a + b)[1..] == a[1..] + b;
      AcceptedConcat(Next(s, a[0]), a[1..], b);
    }
  }

  // Sixty is reached: thirty attempts at the end of a window and thirty at the
  // start of the next are a nanosecond apart.
  lemma MinuteBoundIsTight(t: int)
    ensures var t1, t2 := t + 60_000_000_000, t + 60_000_000_001;
            var opening, reopening := [Call(t, t)] + Burst(t1, 29), [Call(t2, t2)] + Burst(t2, 29);
            && Accepted(FRESH, opening) == 30
            && Accepted(FRESH, opening + reopening) == 60
            && Ordered(opening + reopening)
  {
    var opening := [Call(t, t)] + Burst(t + MINUTE, LIMIT - 1);
    var t2 := t + MINUTE + 1;
    var reopening := [Call(t2, t2)] + Burst(t2, LIMIT - 1);
    var s1 := Next(FRESH, Call(t, t));
    assert opening[1..] == Burst(t + MINUTE, LIMIT - 1);
    BurstAccepted(s1, t + MINUTE, LIMIT - 1);
    var s2 := After(FRESH, opening);
    assert s2 == State(Some(t), LIMIT);
    assert reopening[1..] == Burst(t2, LIMIT - 1);
    BurstAccepted(Next(s2, Call(t2, t2)), t2, LIMIT - 1);
    AcceptedConcat(FRESH, opening, reopening);
  }
}
