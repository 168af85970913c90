/** The key broker's admission policy: a sliding window over the last sixty seconds and a bounded
    number of requests in flight. */
module BrokerPolicy {
  const WINDOW := 60.0

  /** The entries of a history after `low` and no later than `high`, in order. */
  function Within(history: seq<real>, low: real, high: real): seq<real> {
    if history == [] then []
    else
      var last := history[|history| - 1];
      Within(history[..|history| - 1], low, high) + if low < last <= high then [last] else []
  }

  ghost predicate Ascending(history: seq<real>) {
    forall i, j :: 0 <= i < j < |history| ==> history[i] <= history[j]
  }

  ghost predicate NoLater(history: seq<real>, now: real) {
    forall i :: 0 <= i < |history| ==> history[i] <= now
  }

  /** How many admissions the sixty seconds that end at `t` hold. */
  function Load(history: seq<real>, t: real): nat {
    |Within(history, t - 60.0, t)|
  }

  /** Any `most + 1` admissions in a row take a whole window. */
  ghost predicate Spaced(history: seq<real>, most: nat) {
    forall i :: most <= i < |history| ==> history[i - most] <= history[i] - WINDOW
  }

  lemma {:induction false} WithinSuffix(history: seq<real>, low: real, high: real, k: nat)
    requires k <= |history| && Ascending(history)
    requires forall i :: 0 <= i < k ==> history[i] <= low
    requires forall i :: k <= i < |history| ==> low < history[i] <= high
    ensures Within(history, low, high) == history[k..]
  {
    if history != [] {
      var n := |history| - 1;
      if k <= n {
        WithinSuffix(history[..n], low, high, k);
        assert history[k..] == history[..n][k..] + [history[n]];
      } else {
        WithinSuffix(history[..n], low, high, n);
        assert history[..n][n..] == [] && history[k..] == [];
      }
    }
  }

  /** Where the window begins in an ascending history. */
  lemma {:induction false} SuffixExists(history: seq<real>, low: real) returns (k: nat)
    requires Ascending(history)
    ensures k <= |history|
    ensures forall i :: 0 <= i < k ==> history[i] <= low
    ensures forall i :: k <= i < |history| ==> low < history[i]
  {
    k := |history|;
    while k > 0 && low < history[k - 1]
      invariant k <= |history|
      invariant forall i :: k <= i < |history| ==> low < history[i]
    {
      k := k - 1;
    }
  }

  /** No sixty seconds, wherever they begin, hold more than `most` admissions. */
  lemma {:induction false} WindowBound(history: seq<real>, most: nat, t: real)
    requires Ascending(history) && Spaced(history, most) && most >= 1
    ensures Load(history, t) <= most
  {
    if history != [] {
      var n := |history| - 1;
      if history[n] > t {
        WindowBound(history[..n], most, t);
      } else {
        var k := SuffixExists(history, t - WINDOW);
        WithinSuffix(history, t - WINDOW, t, k);
        assert n >= most ==> history[n - most] <= t - WINDOW;
      }
    }
  }

  /** Admitting into a window that is not full keeps the admissions spaced out. */
  lemma AdmitSpaced(history: seq<real>, most: nat, now: real)
    requires Ascending(history) && Spaced(history, most) && most >= 1
    requires NoLater(history, now)
    requires Load(history, now) < most
    ensures Ascending(history + [now]) && Spaced(history + [now], most)
    ensures Within(history + [now], now - WINDOW, now) == Within(history, now - WINDOW, now) + [now]
  {
    var k := SuffixExists(history, now - WINDOW);
    WithinSuffix(history, now - WINDOW, now, k);
    assert (history + [now])[..|history|] == history;
  }

  /** Dropping from the front what has left the window leaves what is in it. */
  lemma PruneWithin(history: seq<real>, before: real, now: real, k: nat)
    requires Ascending(history) && before <= now
    requires NoLater(history, before)
    requires k <= |Within(history, before - WINDOW, before)|
    requires var times := Within(history, before - WINDOW, before);
      && (forall i :: 0 <= i < k ==> times[i] <= now - WINDOW)
      && (k < |times| ==> times[k] > now - WINDOW)
    ensures Within(history, now - WINDOW, now) == Within(history, before - WINDOW, before)[k..]
  {
    var a := SuffixExists(history, before - WINDOW);
    WithinSuffix(history, before - WINDOW, before, a);
    WithinSuffix(history, now - WINDOW, now, a + k);
  }

  /** The deque after the loop at its front. */
  function Pruned(times: seq<real>, cutoff: real): seq<real> {
    if times != [] && times[0] <= cutoff then Pruned(times[1..], cutoff) else times
  }

  /** One call of `admit_request` on the bare fields: the answer and the deque it leaves. */
  function Admission(times: seq<real>, slots: nat, most: nat, now: real): (bool, seq<real>) {
    var kept := Pruned(times, now - WINDOW);
    if |kept| >= most || slots == 0 then (false, kept) else (true, kept + [now])
  }

  /** With a limit of one: a request admitted at `x`, a later one that reads `a`, is first at the lock
      and finds no slot, and a third that reads `b` and finds one. */
  predicate BoundHolds(x: real, a: real, b: real) {
    var between := Admission([x], 0, 1, a);
    var second := Admission(between.1, 1, 1, b);
    second.0 ==> Load([x, b], x) <= 1 && Load([x, b], b) <= 1
  }

  /** The clock is read before the lock is taken, so the lock may be given out in another order than
      the readings. That order is exactly what the bound needs: it holds in every such history if and
      only if the readings do not go back. */
  lemma OrderIsNeeded(a: real, b: real)
    ensures (forall x :: x <= a ==> BoundHolds(x, a, b)) <==> a <= b
  {
    if a <= b {
      forall x | x <= a
        ensures BoundHolds(x, a, b)
      {
        PairLoad(x, b, x);
        PairLoad(x, b, b);
      }
    } else {
      var x := if a - WINDOW <= b then a - WINDOW else b;
      PairLoad(x, b, b);
      assert Pruned([x], a - WINDOW) == [];
      assert x <= a && !BoundHolds(x, a, b);
    }
  }

  lemma PairLoad(x: real, y: real, t: real)
    ensures Load([x, y], t) ==
      (if t - WINDOW < x <= t then 1 else 0) + if t - WINDOW < y <= t then 1 else 0
  {
    assert [x, y][..1] == [x] && [x][..0] == [];
    assert Within([x], t - WINDOW, t) == if t - WINDOW < x <= t then [x] else [];
  }

  /** Such a run: under a limit of one, two requests ten seconds apart are both admitted, because a
      third one, read later, was first at the lock, cleared the deque and found no slot. */
  lemma OutOfOrderReadings()
    ensures var first := Admission([], 1, 1, 100.0);
            var between := Admission(first.1, 0, 1, 161.0);
            var second := Admission(between.1, 1, 1, 110.0);
      first.0 && !between.0 && second.0 && Load([100.0, 110.0], 110.0) == 2
  {
    assert Pruned([100.0], 101.0) == [];
    PairLoad(100.0, 110.0, 110.0);
  }

  class KeyBrokerPolicy {
    const maxConcurrent: nat
    const maxRequestsPerMinute: nat
    /** `_request_times`. */
    var requestTimes: seq<real>
    /** `_operation_slots`: how many may still be taken. */
    var slots: nat

    /** Every admission so far and every reading of the clock, in the order of the lock. */
    ghost var admitted: seq<real>
    ghost var readings: seq<real>
    /** Admissions not yet released. */
    ghost var inFlight: nat

    ghost predicate Valid()
      reads this
    {
      && maxConcurrent >= 1 && maxRequestsPerMinute >= 1 && readings != []
      && slots + inFlight == maxConcurrent
      && (Ascending(readings) ==> Windowed(admitted, readings[|readings| - 1], requestTimes, maxRequestsPerMinute))
    }

    constructor (maxConcurrent: nat, maxRequestsPerMinute: nat, now: real)
      requires maxConcurrent >= 1 && maxRequestsPerMinute >= 1
      ensures Valid() && admitted == [] && inFlight == 0 && readings == [now]
      ensures this.maxConcurrent == maxConcurrent && this.maxRequestsPerMinute == maxRequestsPerMinute
    {
      this.maxConcurrent, this.maxRequestsPerMinute := maxConcurrent, maxRequestsPerMinute;
      requestTimes, slots, admitted, readings, inFlight := [], maxConcurrent, [], [now], 0;
    }

    /** `_init_policy`: limits below one are refused. */
    static method Init(maxConcurrent: int, maxRequestsPerMinute: int, now: real) returns (policy: KeyBrokerPolicy?)
      ensures policy == null <==> maxConcurrent < 1 || maxRequestsPerMinute < 1
      ensures policy != null ==>
        && fresh(policy) && policy.Valid() && policy.admitted == [] && policy.readings == [now]
        && policy.maxConcurrent == maxConcurrent && policy.maxRequestsPerMinute == maxRequestsPerMinute
    {
      if maxConcurrent < 1 || maxRequestsPerMinute < 1 {
        return null;
      }
      policy := new KeyBrokerPolicy(maxConcurrent, maxRequestsPerMinute, now);
    }

    /** `admit_request`. While the clock has been read in the order of the lock, it admits exactly when
        the last sixty seconds have room and a slot is free, and the deque is what they hold. */
    method AdmitRequest(now: real) returns (admit: bool)
      requires Valid()
      modifies this
      ensures Valid() && readings == old(readings) + [now]
      ensures (admit, requestTimes) == Admission(old(requestTimes), old(slots), maxRequestsPerMinute, now)
      ensures admitted == old(admitted) + if admit then [now] else []
      ensures inFlight == old(inFlight) + if admit then 1 else 0
      ensures Ascending(readings) ==>
        && (admit <==> Load(old(admitted), now) < maxRequestsPerMinute && old(inFlight) < maxConcurrent)
        && requestTimes == Within(admitted, now - 60.0, now)
    {
      hide Within, Load, Windowed, Ascending;
      ghost var times := requestTimes;
      var cutoff := now - WINDOW;
      while requestTimes != [] && requestTimes[0] <= cutoff
        invariant Pruned(requestTimes, cutoff) == Pruned(times, cutoff)
        invariant admitted == old(admitted) && slots == old(slots) && inFlight == old(inFlight) && readings == old(readings)
        decreases |requestTimes|
      {
        requestTimes := requestTimes[1..];
      }
      WindowedStep(admitted, readings, times, maxRequestsPerMinute, now, slots);
      readings := readings + [now];
      if |requestTimes| >= maxRequestsPerMinute {
        return false;
      }
      if slots == 0 {
        return false;
      }
      slots, inFlight := slots - 1, inFlight + 1;
      requestTimes, admitted := requestTimes + [now], admitted + [now];
      admit := true;
    }

    /** `release_request`: giving back more slots than were taken is an error of the semaphore. */
    method ReleaseRequest() returns (ok: bool)
      requires Valid()
      modifies this`slots, this`inFlight
      ensures Valid()
      ensures ok <==> old(inFlight) > 0
      ensures inFlight == if ok then old(inFlight) - 1 else old(inFlight)
    {
      if slots == maxConcurrent {
        return false;
      }
      slots, inFlight := slots + 1, inFlight - 1;
      ok := true;
    }
  }

  /** What readings in order keep: the deque is the current window, and no window is overfull. */
  ghost predicate Windowed(admitted: seq<real>, latest: real, times: seq<real>, most: nat) {
    && Ascending(admitted) && NoLater(admitted, latest) && Spaced(admitted, most)
    && times == Within(admitted, latest - WINDOW, latest)
  }

  /** One call with a reading in order. */
  lemma WindowedStep(admitted: seq<real>, readings: seq<real>, times: seq<real>, most: nat, now: real, slots: nat)
    requires readings != [] && most >= 1
    requires Ascending(readings) ==> Windowed(admitted, readings[|readings| - 1], times, most)
    ensures Ascending(readings + [now]) ==>
      var (admit, left) := Admission(times, slots, most, now);
      var grown := if admit then admitted + [now] else admitted;
      && (admit <==> Load(admitted, now) < most && slots > 0)
      && Windowed(grown, now, left, most) && left == Within(grown, now - WINDOW, now)
  {
    hide Within, Pruned, Spaced, Ascending, NoLater;
    if Ascending(readings + [now]) {
      var latest := readings[|readings| - 1];
      LastReading(readings, now);
      PrunedWindow(admitted, latest, times, now);
      NoLaterThan(admitted, latest, now);
      if Load(admitted, now) < most {
        AdmitSpaced(admitted, most, now);
      }
    }
  }

  lemma LastReading(readings: seq<real>, now: real)
    requires readings != [] && Ascending(readings + [now])
    ensures Ascending(readings) && readings[|readings| - 1] <= now
  {
    var all := readings + [now];
    assert forall i :: 0 <= i < |readings| ==> all[i] == readings[i];
    assert all[|readings|] == now;
  }

  lemma NoLaterThan(history: seq<real>, latest: real, now: real)
    requires NoLater(history, latest) && latest <= now
    ensures NoLater(history, now) && NoLater(history + [now], now)
  {
  }

  lemma PrunedWindow(admitted: seq<real>, latest: real, times: seq<real>, now: real)
    requires Ascending(admitted) && NoLater(admitted, latest) && latest <= now
    requires times == Within(admitted, latest - WINDOW, latest)
    ensures Pruned(times, now - WINDOW) == Within(admitted, now - WINDOW, now)
  {
    PrunedIsSuffix(times, now - WINDOW);
    PruneWithin(admitted, latest, now, |times| - |Pruned(times, now - WINDOW)|);
  }

  lemma {:induction false} PrunedIsSuffix(times: seq<real>, cutoff: real)
    ensures |Pruned(times, cutoff)| <= |times|
    ensures var k := |times| - |Pruned(times, cutoff)|;
      && Pruned(times, cutoff) == times[k..]
      && (forall i :: 0 <= i < k ==> times[i] <= cutoff)
      && (k < |times| ==> times[k] > cutoff)
  {
    if times != [] && times[0] <= cutoff {
      PrunedIsSuffix(times[1..], cutoff);
    }
  }

  /** What happens at the broker: a request comes in with the clock as it read it, or one of the
      requests being served, chosen by the scheduler, comes to its end, well or badly. */
  datatype Event = Arrives(request: nat, now: real) | Ends(request: nat)

  /** The readings of the clock, in the order of the lock. */
  function Readings(events: seq<Event>): seq<real> {
    if events == [] then []
    else
      var last := events[|events| - 1];
      Readings(events[..|events| - 1]) + if last.Arrives? then [last.now] else []
  }

  /** `do_POST` for many requests at once: each is admitted or refused when it comes, and an
      admitted one gives its slot back exactly once, in the `finally`. In-flight requests never exceed
      the slots; and when the clock was read in the order of the lock no sixty seconds hold more
      admissions than the limit. */
  method Serve(policy: KeyBrokerPolicy, events: seq<Event>) returns (serving: set<nat>)
    requires policy.Valid() && policy.inFlight == 0
    requires forall i, j :: 0 <= i < j < |events| && events[i].Arrives? && events[j].Arrives? ==>
      events[i].request != events[j].request
    modifies policy
    ensures policy.Valid() && |serving| == policy.inFlight <= policy.maxConcurrent
    ensures old(policy.admitted) <= policy.admitted && policy.readings == old(policy.readings) + Readings(events)
    ensures Ascending(policy.readings) ==> forall t :: Load(policy.admitted, t) <= policy.maxRequestsPerMinute
  {
    hide Within, Spaced, Ascending, NoLater, Load, Windowed, Admission, Pruned;
    serving := {};
    ghost var seen: set<nat> := {};
    assert events[..0] == [];
    for n := 0 to |events|
      invariant policy.Valid() && |serving| == policy.inFlight && old(policy.admitted) <= policy.admitted
      invariant serving <= seen && forall i :: n <= i < |events| && events[i].Arrives? ==> events[i].request !in seen
      invariant policy.readings == old(policy.readings) + Readings(events[..n])
    {
      assert events[..n + 1][..n] == events[..n];
      match events[n]
      case Arrives(request, now) =>
        seen := seen + {request};
        var admit := policy.AdmitRequest(now);
        if admit {
          serving := serving + {request};
        }
      case Ends(request) =>
        if request in serving {
          serving := serving - {request};
          var released := policy.ReleaseRequest();
          assert released;
        }
    }
    assert events[..|events|] == events;
    if Ascending(policy.readings) {
      WindowedBound(policy.admitted, policy.readings[|policy.readings| - 1], policy.requestTimes,
                    policy.maxRequestsPerMinute);
    }
  }

  lemma WindowedBound(admitted: seq<real>, latest: real, times: seq<real>, most: nat)
    requires Windowed(admitted, latest, times, most) && most >= 1
    ensures forall t :: Load(admitted, t) <= most
  {
    forall t
      ensures Load(admitted, t) <= most
    {
      WindowBound(admitted, most, t);
    }
  }
}
