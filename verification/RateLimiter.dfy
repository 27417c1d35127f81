/** The per-key request limiter of the DHT, over whole runs of a nondecreasing clock. */
module RateLimiter {
  import opened Bytes

  const MAX_PER_WINDOW: nat := 100
  const WINDOW_SECONDS: nat := 60

  datatype Window = Window(count: int, start: int)

  /** One key on its own: a request opens a window, joins the open one, or is refused by it. */
  function Decide(w: Option<Window>, now: nat): (Window, bool) {
    if w.None? || now - w.value.start > WINDOW_SECONDS then (Window(1, now), true)
    else if w.value.count >= MAX_PER_WINDOW then (w.value, false)
    else (Window(w.value.count + 1, w.value.start), true)
  }

  function Get<K, V>(m: map<K, V>, k: K): Option<V> {
    if k in m then Some(m[k]) else None
  }

  function Retain<K>(m: map<K, Window>, now: nat): map<K, Window> {
    map k | k in m && now - m[k].start <= WINDOW_SECONDS :: m[k]
  }

  /** The shared table: every call prunes every key before it decides. */
  function Step<K>(m: map<K, Window>, now: nat, key: K): (map<K, Window>, bool) {
    var kept := Retain(m, now);
    var (w, ok) := Decide(Get(kept, key), now);
    (kept[key := w], ok)
  }

  class RateLimiter<K(==)> {
    var requests: map<K, Window>

    constructor ()
      ensures requests == map[]
    {
      requests := map[];
    }

    /** `RateLimiter::check`, one call under the write lock. The subtraction needs a clock that has not gone back. */
    method Check(now: nat, key: K) returns (ok: bool)
      requires forall k :: k in requests ==> requests[k].start <= now
      modifies this
      ensures (requests, ok) == Step(old(requests), now, key)
      ensures forall k :: k in requests ==> requests[k].start <= now
    {
      requests := Retain(requests, now);
      if key !in requests {
        requests := requests[key := Window(0, now)];
      }
      var w := requests[key];
      var (next, accepted) :=
        if now - w.start > WINDOW_SECONDS then (Window(1, now), true)
        else if w.count >= MAX_PER_WINDOW then (w, false)
        else (Window(w.count + 1, w.start), true);
      requests, ok := requests[key := next], accepted;
      assert requests == Step(old(requests), now, key).0;
    }
  }

  datatype Request<K> = Request(time: nat, key: K)

  /** The table after a run, and the answers given to one key during it. */
  function Table<K>(run: seq<Request<K>>): map<K, Window> {
    if run == [] then map[]
    else Step(Table(Front(run)), Last(run).time, Last(run).key).0
  }

  function Answers<K(==)>(run: seq<Request<K>>, key: K): seq<bool> {
    if run == [] then []
    else
      var before := Answers(Front(run), key);
      if Last(run).key != key then before
      else before + [Step(Table(Front(run)), Last(run).time, key).1]
  }

  function TimesOf<K(==)>(run: seq<Request<K>>, key: K): seq<nat> {
    if run == [] then []
    else
      var before := TimesOf(Front(run), key);
      if Last(run).key == key then before + [Last(run).time] else before
  }

  ghost predicate Nondecreasing(times: seq<nat>) {
    forall i, j :: 0 <= i <= j < |times| ==> times[i] <= times[j]
  }

  ghost predicate ClockRuns<K>(run: seq<Request<K>>) {
    forall i, j :: 0 <= i <= j < |run| ==> run[i].time <= run[j].time
  }

  /** The window a lone key ends in, and the answers it gets, when its requests come at the given times. */
  function LoneWindow(times: seq<nat>): Option<Window> {
    if times == [] then None else Some(Decide(LoneWindow(Front(times)), Last(times)).0)
  }

  function LoneAnswers(times: seq<nat>): seq<bool> {
    if times == [] then []
    else LoneAnswers(Front(times)) + [Decide(LoneWindow(Front(times)), Last(times)).1]
  }

  function Live(w: Option<Window>, now: nat): Option<Window> {
    if w.Some? && now - w.value.start <= WINDOW_SECONDS then w else None
  }

  /** Pruning by other keys' calls is never felt: what is still live for a key is what it would have alone. */
  lemma {:induction false} PruningIsUnseen<K>(run: seq<Request<K>>, key: K, now: nat)
    requires ClockRuns(run) && (run != [] ==> Last(run).time <= now)
    ensures Live(Get(Table(run), key), now) == Live(LoneWindow(TimesOf(run, key)), now)
    ensures Answers(run, key) == LoneAnswers(TimesOf(run, key))
  {
    if run != [] {
      var before, r := Front(run), Last(run);
      PruningIsUnseen(before, key, r.time);
      PruningIsUnseen(before, key, now);
      assert Get(Retain(Table(before), r.time), key) == Live(Get(Table(before), key), r.time);
      if r.key == key {
        var times := TimesOf(run, key);
        assert Front(times) == TimesOf(before, key) && Last(times) == r.time;
        assert Decide(Live(LoneWindow(Front(times)), r.time), r.time) == Decide(LoneWindow(Front(times)), r.time);
      }
    }
  }

  /** The answers a key gets depend on its own request times only, whatever the other keys send in between. */
  lemma {:induction false} KeysAreIndependent<K>(run: seq<Request<K>>, other: seq<Request<K>>, key: K)
    requires ClockRuns(run) && ClockRuns(other) && TimesOf(run, key) == TimesOf(other, key)
    ensures Answers(run, key) == Answers(other, key)
  {
    PruningIsUnseen(run, key, if run == [] then 0 else Last(run).time);
    PruningIsUnseen(other, key, if other == [] then 0 else Last(other).time);
  }

  /** Windows defined by the request times alone: a request more than 60 seconds after the start opens the next. */
  function WindowStart(times: seq<nat>): nat
    requires times != []
  {
    if |times| == 1 || Last(times) - WindowStart(Front(times)) > WINDOW_SECONDS then Last(times)
    else WindowStart(Front(times))
  }

  /** How many of the requests so far fell into the window of the last one. */
  function InCurrentWindow(times: seq<nat>): nat
    requires times != []
  {
    if |times| == 1 || Last(times) - WindowStart(Front(times)) > WINDOW_SECONDS then 1
    else InCurrentWindow(Front(times)) + 1
  }

  /** A request is accepted exactly when it is among the first 100 of its window. */
  lemma {:induction false} FirstHundredOfWindow(times: seq<nat>)
    requires times != []
    ensures Last(LoneAnswers(times)) <==> InCurrentWindow(times) <= MAX_PER_WINDOW
    ensures LoneWindow(times).value == Window(Min(InCurrentWindow(times), MAX_PER_WINDOW), WindowStart(times))
  {
    if |times| > 1 { FirstHundredOfWindow(Front(times)); }
  }

  /** Accepted requests of a lone key with time in `from .. from + 60`. */
  function AcceptedWithin(times: seq<nat>, from: nat): nat {
    if times == [] then 0
    else
      AcceptedWithin(Front(times), from) +
      if Decide(LoneWindow(Front(times)), Last(times)).1 && from <= Last(times) <= from + WINDOW_SECONDS then 1 else 0
  }

  /** What bounds a span: it meets at most two windows, and the opening request of the earlier one lies outside. */
  lemma {:induction false} SpanInvariant(times: seq<nat>, from: nat)
    requires Nondecreasing(times) && times != []
    ensures 0 <= Last(times) - LoneWindow(times).value.start <= WINDOW_SECONDS
    ensures 1 <= LoneWindow(times).value.count <= MAX_PER_WINDOW
    ensures var w := LoneWindow(times).value;
            && (w.start < from ==> AcceptedWithin(times, from) < w.count)
            && (w.start == from ==> AcceptedWithin(times, from) <= w.count)
            && (from < w.start <= from + WINDOW_SECONDS ==> AcceptedWithin(times, from) < MAX_PER_WINDOW + w.count)
            && AcceptedWithin(times, from) < 2 * MAX_PER_WINDOW
  {
    var before := Front(times);
    if before == [] {
      assert AcceptedWithin(before, from) == 0;
    } else {
      SpanInvariant(before, from);
      assert Last(before) == times[|times| - 2] <= Last(times);
      if Last(before) < from { NothingBefore(before, from); }
    }
  }

  lemma {:induction false} NothingBefore(times: seq<nat>, from: nat)
    requires Nondecreasing(times) && (times != [] ==> Last(times) < from)
    ensures AcceptedWithin(times, from) == 0
  {
    if |times| > 1 {
      assert Last(Front(times)) == times[|times| - 2] <= Last(times);
      NothingBefore(Front(times), from);
    }
  }

  /** The granted answers among requests with time in `from .. from + 60`. */
  function Granted(answers: seq<bool>, times: seq<nat>, from: nat): nat
    requires |answers| == |times|
  {
    if times == [] then 0
    else
      Granted(Front(answers), Front(times), from) +
      if Last(answers) && from <= Last(times) <= from + WINDOW_SECONDS then 1 else 0
  }

  lemma {:induction false} GrantedAlone(times: seq<nat>, from: nat)
    ensures |LoneAnswers(times)| == |times|
    ensures Granted(LoneAnswers(times), times, from) == AcceptedWithin(times, from)
  {
    if times != [] {
      GrantedAlone(Front(times), from);
      assert Front(LoneAnswers(times)) == LoneAnswers(Front(times));
    }
  }

  /** In any run, in any span of 60 seconds, a key gets at most 199 requests through, whatever the other keys do. */
  lemma {:induction false} AtMost199PerSpan<K>(run: seq<Request<K>>, key: K, from: nat)
    requires ClockRuns(run)
    ensures |Answers(run, key)| == |TimesOf(run, key)|
    ensures Granted(Answers(run, key), TimesOf(run, key), from) <= 199
  {
    GrantedAlone(TimesOf(run, key), from);
    PruningIsUnseen(run, key, if run == [] then 0 else Last(run).time);
    TimesNondecreasing(run, key);
    if TimesOf(run, key) != [] { SpanInvariant(TimesOf(run, key), from); }
  }

  lemma {:induction false} TimesNondecreasing<K>(run: seq<Request<K>>, key: K)
    requires ClockRuns(run)
    ensures Nondecreasing(TimesOf(run, key))
    ensures forall i :: 0 <= i < |TimesOf(run, key)| ==> TimesOf(run, key)[i] <= Last(run).time
  {
    if run != [] {
      TimesNondecreasing(Front(run), key);
    }
  }

  /** `times` followed by `n` requests at `t`. */
  function Then(times: seq<nat>, t: nat, n: nat): seq<nat> {
    if n == 0 then times else Then(times, t, n - 1) + [t]
  }

  lemma {:induction false} ThenNondecreasing(times: seq<nat>, t: nat, n: nat)
    requires Nondecreasing(times) && (times != [] ==> Last(times) <= t)
    ensures Nondecreasing(Then(times, t, n)) && (Then(times, t, n) != [] ==> Last(Then(times, t, n)) <= t)
  {
    if n > 0 { ThenNondecreasing(times, t, n - 1); }
  }

  lemma {:induction false} AppendOne(times: seq<nat>, t: nat, from: nat)
    ensures LoneWindow(times + [t]) == Some(Decide(LoneWindow(times), t).0)
    ensures AcceptedWithin(times + [t], from) == AcceptedWithin(times, from) +
            if Decide(LoneWindow(times), t).1 && from <= t <= from + WINDOW_SECONDS then 1 else 0
  {
    assert Front(times + [t]) == times && Last(times + [t]) == t;
  }

  /** Repeating a request inside the open window: each of the first 100 is accepted. */
  lemma {:induction false} RepeatAccepted(times: seq<nat>, w: Window, t: nat, n: nat, from: nat)
    requires from <= t <= from + WINDOW_SECONDS
    requires LoneWindow(times) == Some(w) && t - w.start <= WINDOW_SECONDS && w.count + n <= MAX_PER_WINDOW
    ensures AcceptedWithin(Then(times, t, n), from) == AcceptedWithin(times, from) + n
    ensures LoneWindow(Then(times, t, n)) == Some(Window(w.count + n, w.start))
  {
    if n > 0 {
      var before := Then(times, t, n - 1);
      RepeatAccepted(times, w, t, n - 1, from);
      AppendOne(before, t, from);
      assert Then(times, t, n) == before + [t];
      assert Decide(LoneWindow(before), t) == (Window(w.count + n, w.start), true);
    }
  }

  lemma {:induction false} ThenShift(times: seq<nat>, t: nat, n: nat)
    ensures Then(times + [t], t, n) == Then(times, t, n + 1)
  {
    if n > 0 { ThenShift(times, t, n - 1); }
  }

  /** One request at t, 99 at t+60 and 100 at t+61 are all accepted, and 199 of them lie within t+60 .. t+120. */
  lemma {:induction false} LoneBound(t: nat, n: nat)
    requires n == MAX_PER_WINDOW - 1
    ensures var times := Then(Then([t], t + 60, n), t + 61, n + 1);
            Nondecreasing(times) && AcceptedWithin(times, t + 60) == 199
  {
    var early := Then([t], t + 60, n);
    assert [] + [t] == [t];
    AppendOne([], t, t + 60);
    RepeatAccepted([t], Window(1, t), t + 60, n, t + 60);
    AppendOne(early, t + 61, t + 60);
    RepeatAccepted(early + [t + 61], Window(1, t + 61), t + 61, n, t + 60);
    ThenShift(early, t + 61, n);
    ThenNondecreasing([t], t + 60, n);
    ThenNondecreasing(early, t + 61, n + 1);
  }

  /** The run in which one key alone makes requests, at the given times. */
  function RunOf<K>(key: K, times: seq<nat>): seq<Request<K>> {
    seq(|times|, i requires 0 <= i < |times| => Request(times[i], key))
  }

  lemma {:induction false} TimesOfRun<K(!new)>(key: K, times: seq<nat>)
    ensures TimesOf(RunOf(key, times), key) == times
    decreases |times|
  {
    if times != [] {
      TimesOfRun(key, Front(times));
      assert Front(RunOf(key, times)) == RunOf(key, Front(times));
      assert times == Front(times) + [Last(times)];
    }
  }

  /** The bound is reached: for every key and from any start there is a run in which 199 requests get through within 60
      seconds. */
  lemma {:induction false} BoundIsReached<K(!new)>(key: K, t: nat) returns (run: seq<Request<K>>)
    ensures ClockRuns(run) && |Answers(run, key)| == |TimesOf(run, key)|
    ensures Granted(Answers(run, key), TimesOf(run, key), t + 60) == 199
  {
    var n := MAX_PER_WINDOW - 1;
    var times := Then(Then([t], t + 60, n), t + 61, n + 1);
    LoneBound(t, n);
    run := RunOf(key, times);
    TimesOfRun(key, times);
    PruningIsUnseen(run, key, if times == [] then 0 else Last(times));
    GrantedAlone(times, t + 60);
  }
}
