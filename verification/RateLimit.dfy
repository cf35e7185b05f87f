/** The in-memory sliding-window limiters.

    One table maps a client key to a deque of request times. Every call first drops the expired
    times at the head of the key's deque and then decides. Two policies exist: the request
    limiters record a request only when they admit it, while the login-attempt limiter records
    every attempt before it checks.

    Times are integers in any unit. The lock around each call makes it one step.
  */
module RateLimit {
  datatype Arrival = Arrival(key: string, now: int)

  datatype Policy = RecordAdmitted | RecordEvery

  type Attempts = map<string, seq<int>>

  function Deque(attempts: Attempts, key: string): seq<int> {
    if key in attempts then attempts[key] else []
  }

  /** The deque once the expired times at its head are gone; it stops at the first live one. */
  function Prune(times: seq<int>, cutoff: int): seq<int> {
    if times != [] && times[0] <= cutoff then Prune(times[1..], cutoff) else times
  }

  /** One limiter call: the new table and whether the request is admitted. */
  function Step(p: Policy, attempts: Attempts, e: Arrival, window: int, limit: int): (Attempts, bool) {
    var live := Prune(Deque(attempts, e.key), e.now - window);
    match p
    case RecordAdmitted =>
      if |live| >= limit then (attempts[e.key := live], false) else (attempts[e.key := live + [e.now]], true)
    case RecordEvery =>
      (attempts[e.key := live + [e.now]], |live + [e.now]| <= limit)
  }

  /** The table and the answers after a whole sequence of arrivals. */
  function Run(p: Policy, events: seq<Arrival>, window: int, limit: int): (r: (Attempts, seq<bool>))
    ensures |r.1| == |events|
  {
    if events == [] then (map[], [])
    else
      var (attempts, answers) := Run(p, events[..|events| - 1], window, limit);
      var (attempts', ok) := Step(p, attempts, events[|events| - 1], window, limit);
      (attempts', answers + [ok])
  }

  class SlidingWindow {
    const window: int
    const limit: int
    var attempts: Attempts

    constructor (window: int, limit: int)
      ensures this.window == window && this.limit == limit && attempts == map[]
    {
      this.window, this.limit, attempts := window, limit, map[];
    }

    /** The request limiters: a rejected request leaves no trace in its window. */
    method CheckLimit(key: string, now: int) returns (admitted: bool)
      modifies this
      ensures (attempts, admitted) == Step(RecordAdmitted, old(attempts), Arrival(key, now), window, limit)
    {
      var live := if key in attempts then attempts[key] else [];
      while |live| > 0 && live[0] <= now - window
        invariant Prune(live, now - window) == Prune(Deque(old(attempts), key), now - window)
      {
        live := live[1..];
      }
      admitted := |live| < limit;
      if admitted {
        live := live + [now];
      }
      attempts := attempts[key := live];
    }

    /** The login-attempt limiter: the attempt is recorded before the count is checked. */
    method RegisterAttempt(key: string, now: int) returns (admitted: bool)
      modifies this
      ensures (attempts, admitted) == Step(RecordEvery, old(attempts), Arrival(key, now), window, limit)
    {
      var live := if key in attempts then attempts[key] else [];
      while |live| > 0 && live[0] <= now - window
        invariant Prune(live, now - window) == Prune(Deque(old(attempts), key), now - window)
      {
        live := live[1..];
      }
      live := live + [now];
      attempts := attempts[key := live];
      admitted := |live| <= limit;
    }

    /** Clears every counter, so that the next call starts a new run. */
    method Reset()
      modifies this
      ensures attempts == map[]
    {
      attempts := map[];
    }
  }

  // ----- The specification: count over the full history, with no pruning at all -----

  predicate Recorded(p: Policy, admitted: bool) {
    p == RecordEvery || admitted
  }

  /** How many recorded arrivals of `key` lie in (lo, hi]. */
  function CountIn(p: Policy, events: seq<Arrival>, answers: seq<bool>, key: string, lo: int, hi: int): nat
    requires |answers| == |events|
  {
    if events == [] then 0
    else
      var n := |events| - 1;
      var e := events[n];
      CountIn(p, events[..n], answers[..n], key, lo, hi)
      + if Recorded(p, answers[n]) && e.key == key && lo < e.now <= hi then 1 else 0
  }

  /** The answers of a limiter that keeps the whole history and counts the window afresh each time. */
  function SpecAnswers(p: Policy, events: seq<Arrival>, window: int, limit: int): (answers: seq<bool>)
    ensures |answers| == |events|
  {
    if events == [] then []
    else
      var n := |events| - 1;
      var earlier := SpecAnswers(p, events[..n], window, limit);
      var e := events[n];
      earlier + [CountIn(p, events[..n], earlier, e.key, e.now - window, e.now) < limit]
  }

  predicate NonDecreasing(events: seq<Arrival>) {
    forall i, j :: 0 <= i < j < |events| ==> events[i].now <= events[j].now
  }

  lemma {:induction false} Earlier(events: seq<Arrival>, n: nat)
    requires NonDecreasing(events) && |events| == n + 1
    ensures NonDecreasing(events[..n])
    ensures forall i :: 0 <= i < n ==> events[..n][i].now <= events[n].now
  {
  }

  // ----- Refinement -----

  function Above(times: seq<int>, cutoff: int): seq<int> {
    if times == [] then []
    else
      var init, t := Above(times[..|times| - 1], cutoff), times[|times| - 1];
      if t > cutoff then init + [t] else init
  }

  /** All recorded times of `key`, oldest first. */
  function Times(p: Policy, events: seq<Arrival>, answers: seq<bool>, key: string): seq<int>
    requires |answers| == |events|
  {
    if events == [] then []
    else
      var n := |events| - 1;
      var init := Times(p, events[..n], answers[..n], key);
      if Recorded(p, answers[n]) && events[n].key == key then init + [events[n].now] else init
  }

  predicate Sorted(times: seq<int>) {
    forall i, j :: 0 <= i < j < |times| ==> times[i] <= times[j]
  }

  lemma {:induction false} AboveSnoc(times: seq<int>, t: int, cutoff: int)
    ensures Above(times + [t], cutoff) == if t > cutoff then Above(times, cutoff) + [t] else Above(times, cutoff)
  {
    assert (times + [t])[..|times|] == times;
  }

  lemma {:induction false} AboveAll(times: seq<int>, cutoff: int)
    requires forall i :: 0 <= i < |times| ==> times[i] > cutoff
    ensures Above(times, cutoff) == times
  {
    if times == [] {
    } else {
      AboveAll(times[..|times| - 1], cutoff);
    }
  }

  lemma {:induction false} AboveTail(times: seq<int>, cutoff: int)
    requires times != [] && times[0] <= cutoff
    ensures Above(times, cutoff) == Above(times[1..], cutoff)
  {
    if |times| > 1 {
      AboveTail(times[..|times| - 1], cutoff);
      assert times[1..][..|times| - 2] == times[..|times| - 1][1..];
    }
  }

  lemma {:induction false} PruneIsAbove(times: seq<int>, cutoff: int)
    requires Sorted(times)
    ensures Prune(times, cutoff) == Above(times, cutoff)
  {
    if times != [] && times[0] <= cutoff {
      AboveTail(times, cutoff);
      PruneIsAbove(times[1..], cutoff);
    } else {
      AboveAll(times, cutoff);
    }
  }

  lemma {:induction false} PruneKeeps(times: seq<int>, cutoff: int)
    requires Sorted(times)
    ensures Sorted(Prune(times, cutoff))
    ensures forall i :: 0 <= i < |Prune(times, cutoff)| ==> Prune(times, cutoff)[i] <= times[|times| - 1]
  {
    if times != [] && times[0] <= cutoff {
      PruneKeeps(times[1..], cutoff);
    }
  }

  lemma {:induction false} AboveTwice(times: seq<int>, cutoff: int, later: int)
    requires cutoff <= later
    ensures Above(Above(times, cutoff), later) == Above(times, later)
  {
    if times == [] {
    } else {
      var init, t := times[..|times| - 1], times[|times| - 1];
      AboveTwice(init, cutoff, later);
      if t > cutoff {
        AboveSnoc(Above(init, cutoff), t, later);
      }
    }
  }

  lemma {:induction false} CountIsAbove(
      p: Policy, events: seq<Arrival>, answers: seq<bool>, key: string, lo: int, hi: int)
    requires |answers| == |events|
    requires forall i :: 0 <= i < |events| ==> events[i].now <= hi
    ensures CountIn(p, events, answers, key, lo, hi) == |Above(Times(p, events, answers, key), lo)|
  {
    if events == [] {
    } else {
      var n := |events| - 1;
      CountIsAbove(p, events[..n], answers[..n], key, lo, hi);
      AboveSnoc(Times(p, events[..n], answers[..n], key), events[n].now, lo);
    }
  }

  /** At time `now` the deque holds every recorded time that can still matter. */
  ghost predicate Represents(dq: seq<int>, times: seq<int>, now: int, window: int) {
    && Sorted(dq)
    && (forall i :: 0 <= i < |dq| ==> dq[i] <= now)
    && Above(dq, now - window) == Above(times, now - window)
  }

  lemma {:induction false} LaterRepresents(dq: seq<int>, times: seq<int>, last: int, now: int, window: int)
    requires Represents(dq, times, last, window) && last <= now
    ensures Represents(dq, times, now, window)
  {
    hide Above;
    AboveTwice(dq, last - window, now - window);
    AboveTwice(times, last - window, now - window);
  }

  lemma {:induction false} PruneRepresents(dq: seq<int>, times: seq<int>, now: int, window: int)
    requires Represents(dq, times, now, window)
    ensures Prune(dq, now - window) == Above(times, now - window)
    ensures Represents(Prune(dq, now - window), times, now, window)
  {
    hide Above;
    PruneIsAbove(dq, now - window);
    PruneKeeps(dq, now - window);
    AboveTwice(dq, now - window, now - window);
  }

  lemma {:induction false} RecordRepresents(dq: seq<int>, times: seq<int>, now: int, window: int)
    requires Represents(dq, times, now, window)
    ensures Represents(dq + [now], times + [now], now, window)
  {
    hide Above;
    AboveSnoc(dq, now, now - window);
    AboveSnoc(times, now, now - window);
  }

  ghost predicate Current(dq: seq<int>, times: seq<int>, events: seq<Arrival>, window: int) {
    if events == [] then dq == times == [] else Represents(dq, times, events[|events| - 1].now, window)
  }

  lemma {:induction false} AtNextCall(dq: seq<int>, times: seq<int>, events: seq<Arrival>, now: int, window: int)
    requires Current(dq, times, events, window)
    requires events != [] ==> events[|events| - 1].now <= now
    ensures Represents(dq, times, now, window)
  {
    if events != [] {
      LaterRepresents(dq, times, events[|events| - 1].now, now, window);
    }
  }

  lemma {:induction false} StepDeque(p: Policy, before: Attempts, e: Arrival, window: int, limit: int, key: string)
    ensures var (after, ok) := Step(p, before, e, window, limit);
            var live := Prune(Deque(before, key), e.now - window);
            Deque(after, key) == if e.key != key then Deque(before, key)
                                 else if Recorded(p, ok) then live + [e.now] else live
  {
  }

  lemma {:induction false} TimesSnoc(
      p: Policy, events: seq<Arrival>, answers: seq<bool>, e: Arrival, ok: bool, key: string)
    requires |answers| == |events|
    ensures var times := Times(p, events, answers, key);
            Times(p, events + [e], answers + [ok], key)
            == if Recorded(p, ok) && e.key == key then times + [e.now] else times
  {
    assert (events + [e])[..|events|] == events && (answers + [ok])[..|events|] == answers;
  }

  lemma {:induction false} StepCurrent(
      p: Policy, before: Attempts, events: seq<Arrival>, answers: seq<bool>, e: Arrival, window: int, limit: int,
      key: string)
    requires |answers| == |events|
    requires Represents(Deque(before, key), Times(p, events, answers, key), e.now, window)
    ensures var (after, ok) := Step(p, before, e, window, limit);
            Current(Deque(after, key), Times(p, events + [e], answers + [ok], key), events + [e], window)
  {
    hide Above, Prune, Sorted;
    var (after, ok) := Step(p, before, e, window, limit);
    StepDeque(p, before, e, window, limit, key);
    TimesSnoc(p, events, answers, e, ok, key);
    var dq, times := Deque(before, key), Times(p, events, answers, key);
    if e.key == key {
      PruneRepresents(dq, times, e.now, window);
      RecordRepresents(Prune(dq, e.now - window), times, e.now, window);
    }
  }

  lemma {:induction false} StepAnswers(
      p: Policy, before: Attempts, events: seq<Arrival>, answers: seq<bool>, e: Arrival, window: int, limit: int)
    requires |answers| == |events|
    requires forall i :: 0 <= i < |events| ==> events[i].now <= e.now
    requires Represents(Deque(before, e.key), Times(p, events, answers, e.key), e.now, window)
    ensures Step(p, before, e, window, limit).1
            == (CountIn(p, events, answers, e.key, e.now - window, e.now) < limit)
  {
    hide Above, Prune, Sorted, Times, CountIn;
    StepAnswer(p, before, e, window, limit);
    PruneRepresents(Deque(before, e.key), Times(p, events, answers, e.key), e.now, window);
    CountIsAbove(p, events, answers, e.key, e.now - window, e.now);
  }

  ghost predicate AllCurrent(p: Policy, attempts: Attempts, events: seq<Arrival>, answers: seq<bool>, window: int)
    requires |answers| == |events|
  {
    forall key :: Current(Deque(attempts, key), Times(p, events, answers, key), events, window)
  }

  lemma {:induction false} StepAllCurrent(
      p: Policy, before: Attempts, events: seq<Arrival>, answers: seq<bool>, e: Arrival, window: int, limit: int)
    requires |answers| == |events|
    requires forall i :: 0 <= i < |events| ==> events[i].now <= e.now
    requires AllCurrent(p, before, events, answers, window)
    ensures var (after, ok) := Step(p, before, e, window, limit);
            && AllCurrent(p, after, events + [e], answers + [ok], window)
            && ok == (CountIn(p, events, answers, e.key, e.now - window, e.now) < limit)
  {
    hide Represents, Above, Prune, Step, Times, CountIn;
    var (after, ok) := Step(p, before, e, window, limit);
    forall key
      ensures Current(Deque(after, key), Times(p, events + [e], answers + [ok], key), events + [e], window)
    {
      AtNextCall(Deque(before, key), Times(p, events, answers, key), events, e.now, window);
      StepCurrent(p, before, events, answers, e, window, limit, key);
    }
    AtNextCall(Deque(before, e.key), Times(p, events, answers, e.key), events, e.now, window);
    StepAnswers(p, before, events, answers, e, window, limit);
  }

  lemma {:induction false} ExtendRun(p: Policy, earlier: seq<Arrival>, e: Arrival, window: int, limit: int)
    requires forall i :: 0 <= i < |earlier| ==> earlier[i].now <= e.now
    requires var (attempts, answers) := Run(p, earlier, window, limit);
             answers == SpecAnswers(p, earlier, window, limit) && AllCurrent(p, attempts, earlier, answers, window)
    ensures var (attempts, answers) := Run(p, earlier + [e], window, limit);
            && answers == SpecAnswers(p, earlier + [e], window, limit)
            && AllCurrent(p, attempts, earlier + [e], answers, window)
  {
    hide AllCurrent, Step, CountIn;
    assert (earlier + [e])[..|earlier|] == earlier;
    StepAllCurrent(p, Run(p, earlier, window, limit).0, earlier, Run(p, earlier, window, limit).1, e, window, limit);
  }

  /** The limiter that prunes its deques answers exactly as the full-history count. */
  lemma {:induction false} RunRefinesSpec(p: Policy, events: seq<Arrival>, window: int, limit: int)
    requires NonDecreasing(events)
    ensures Run(p, events, window, limit).1 == SpecAnswers(p, events, window, limit)
    ensures AllCurrent(p, Run(p, events, window, limit).0, events, Run(p, events, window, limit).1, window)
  {
    if events == [] {
    } else {
      hide *;
      var n := |events| - 1;
      Earlier(events, n);
      RunRefinesSpec(p, events[..n], window, limit);
      ExtendRun(p, events[..n], events[n], window, limit);
      assert events[..n] + [events[n]] == events;
    }
  }

  lemma {:induction false} StepAnswer(p: Policy, before: Attempts, e: Arrival, window: int, limit: int)
    ensures Step(p, before, e, window, limit).1 == (|Prune(Deque(before, e.key), e.now - window)| < limit)
  {
  }

  // ----- What the specification promises -----

  lemma {:induction false} CountMonotone(
      p: Policy, events: seq<Arrival>, answers: seq<bool>, key: string, lo: int, hi: int, lo': int, hi': int)
    requires |answers| == |events|
    requires lo' <= lo
    requires hi <= hi' || forall e :: e in events ==> e.now <= hi'
    ensures CountIn(p, events, answers, key, lo, hi) <= CountIn(p, events, answers, key, lo', hi')
  {
    if events == [] {
    } else {
      var n := |events| - 1;
      assert events[n] in events;
      CountMonotone(p, events[..n], answers[..n], key, lo, hi, lo', hi');
    }
  }

  /** No half-open window of the configured length, wherever it ends, holds more than the limit. */
  lemma {:induction false} NoWindowExceedsLimit(events: seq<Arrival>, window: int, limit: nat, key: string, end: int)
    requires NonDecreasing(events)
    ensures CountIn(RecordAdmitted, events, Run(RecordAdmitted, events, window, limit).1, key, end - window,
        end) <= limit
  {
    hide Step, NonDecreasing;
    if events == [] {
    } else {
      var n := |events| - 1;
      var e := events[n];
      Earlier(events, n);
      NoWindowExceedsLimit(events[..n], window, limit, key, end);
      RunRefinesSpec(RecordAdmitted, events, window, limit);
      RunRefinesSpec(RecordAdmitted, events[..n], window, limit);
      var answers := Run(RecordAdmitted, events[..n], window, limit).1;
      assert Run(RecordAdmitted, events, window, limit).1[..n] == answers;
      if e.key == key && end - window < e.now <= end {
        CountMonotone(RecordAdmitted, events[..n], answers, key, end - window, end, e.now - window, e.now);
      }
    }
  }

  /** A request is turned away exactly when its own window already holds `limit` admitted ones. */
  lemma {:induction false} RejectedIffWindowFull(earlier: seq<Arrival>, e: Arrival, window: int, limit: nat)
    requires NonDecreasing(earlier + [e])
    ensures var answers := Run(RecordAdmitted, earlier, window, limit).1;
            var ok := Run(RecordAdmitted, earlier + [e], window, limit).1[|earlier|];
            !ok <==> CountIn(RecordAdmitted, earlier, answers, e.key, e.now - window, e.now) == limit
  {
    var all := earlier + [e];
    Earlier(all, |earlier|);
    assert all[..|earlier|] == earlier;
    hide NonDecreasing, Step;
    RunRefinesSpec(RecordAdmitted, all, window, limit);
    RunRefinesSpec(RecordAdmitted, earlier, window, limit);
    NoWindowExceedsLimit(earlier, window, limit, e.key, e.now);
  }

  lemma {:induction false} FewerRecordedWhenStricter(
      events: seq<Arrival>, strict: seq<bool>, lax: seq<bool>, key: string, lo: int, hi: int)
    requires |strict| == |lax| == |events|
    ensures CountIn(RecordAdmitted, events, lax, key, lo, hi) <= CountIn(RecordEvery, events, strict, key, lo, hi)
  {
    if events == [] {
    } else {
      var n := |events| - 1;
      FewerRecordedWhenStricter(events[..n], strict[..n], lax[..n], key, lo, hi);
    }
  }

  /** On the same arrivals, whatever the attempt-counting limiter admits the other one admits too. */
  lemma {:induction false} RecordEveryIsStricter(events: seq<Arrival>, window: int, limit: int)
    requires NonDecreasing(events)
    ensures forall i :: 0 <= i < |events| && Run(RecordEvery, events, window, limit).1[i]
              ==> Run(RecordAdmitted, events, window, limit).1[i]
  {
    if events == [] {
    } else {
      var n := |events| - 1;
      RecordEveryIsStricter(events[..n], window, limit);
      RunRefinesSpec(RecordEvery, events, window, limit);
      RunRefinesSpec(RecordAdmitted, events, window, limit);
      FewerRecordedWhenStricter(events[..n], SpecAnswers(RecordEvery, events[..n], window, limit),
        SpecAnswers(RecordAdmitted, events[..n], window, limit), events[n].key, events[n].now - window, events[n].now);
    }
  }

  // ----- Keys do not affect each other -----

  function OnlyKey(events: seq<Arrival>, key: string): seq<Arrival> {
    if events == [] then []
    else
      var n := |events| - 1;
      var init := OnlyKey(events[..n], key);
      if events[n].key == key then init + [events[n]] else init
  }

  function AnswersOf(events: seq<Arrival>, answers: seq<bool>, key: string): seq<bool>
    requires |answers| == |events|
  {
    if events == [] then []
    else
      var n := |events| - 1;
      var init := AnswersOf(events[..n], answers[..n], key);
      if events[n].key == key then init + [answers[n]] else init
  }

  lemma {:induction false} StepReadsOneDeque(
      p: Policy, a: Attempts, b: Attempts, e: Arrival, window: int, limit: int, key: string)
    requires Deque(a, key) == Deque(b, key)
    ensures e.key == key ==> Step(p, a, e, window, limit).1 == Step(p, b, e, window, limit).1
    ensures e.key == key ==> Deque(Step(p, a, e, window, limit).0, key) == Deque(Step(p, b, e, window, limit).0, key)
    ensures e.key != key ==> Deque(Step(p, a, e, window, limit).0, key) == Deque(a, key)
  {
  }

  /** What one client sees is what it would see if it were alone, whatever the clock does. */
  lemma {:induction false} KeysAreIndependent(p: Policy, events: seq<Arrival>, window: int, limit: int, key: string)
    ensures var (attempts, answers) := Run(p, events, window, limit);
            var (alone, seen) := Run(p, OnlyKey(events, key), window, limit);
            Deque(attempts, key) == Deque(alone, key) && AnswersOf(events, answers, key) == seen
  {
    if events == [] {
    } else {
      hide Step, Deque;
      var n := |events| - 1;
      var earlier, e := events[..n], events[n];
      KeysAreIndependent(p, earlier, window, limit, key);
      var own := OnlyKey(earlier, key);
      StepReadsOneDeque(p, Run(p, earlier, window, limit).0, Run(p, own, window, limit).0, e, window, limit, key);
      if e.key == key {
        assert (own + [e])[..|own|] == own;
      }
    }
  }
}
