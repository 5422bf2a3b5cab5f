/**
  The sliding-window rate limiter of `api/middleware/rate_limit.py` over a modelled Redis sorted
  set with expiry, against the full log of requests.  Times are exact reals in seconds.
 */
module RateLimiter {
  import opened Sequences
  import opened Wrappers

  /** A Redis key: the set's members are request times scored by themselves. */
  datatype Key = Key(members: set<real>, expiresAt: real)

  const TTL_SLACK: nat := 10

  // ---------------------------------------------------------------- one request

  /** What Redis still holds under the key at a given time. */
  function Stored(key: Option<Key>, now: real): set<real> {
    if key == None || key.value.expiresAt <= now then {} else key.value.members
  }

  function Hit(key: Option<Key>, now: real, window: nat): Key {
    var stored := Stored(key, now);
    var kept := set t | t in stored && !(0.0 <= t <= now - window as real);
    Key(kept + {now}, now + (window + TTL_SLACK) as real)
  }

  function KeyAfter(log: seq<real>, window: nat): (key: Option<Key>)
    ensures key.Some? <==> log != []
  {
    if log == [] then None
    else Some(Hit(KeyAfter(log[..|log| - 1], window), log[|log| - 1], window))
  }

  /** Request i is let through when the set then holds at most the allowed number of members. */
  predicate Admitted(log: seq<real>, i: nat, window: nat, limit: nat)
    requires i < |log|
  {
    |KeyAfter(log[..i + 1], window).value.members| <= limit
  }

  // ---------------------------------------------------------------- the full log

  ghost predicate NonDecreasing(log: seq<real>) {
    && (forall i :: 0 <= i < |log| ==> log[i] >= 0.0)
    && (forall i, j :: 0 <= i < j < |log| ==> log[i] <= log[j])
  }

  ghost predicate Increasing(log: seq<real>) {
    && (forall i :: 0 <= i < |log| ==> log[i] >= 0.0)
    && (forall i, j :: 0 <= i < j < |log| ==> log[i] < log[j])
  }

  /** The distinct arrival times after lo. */
  function Since(log: seq<real>, lo: real): set<real> {
    set i | 0 <= i < |log| && log[i] > lo :: log[i]
  }

  /** The number of arrivals after lo. */
  function CountSince(log: seq<real>, lo: real): nat {
    if log == [] then 0
    else CountSince(log[..|log| - 1], lo) + if log[|log| - 1] > lo then 1 else 0
  }

  /** The pruned, expiring set always holds exactly the distinct arrivals of the last window. */
  lemma {:induction false} SetIsTheWindow(log: seq<real>, window: nat)
    requires NonDecreasing(log) && log != []
    ensures HoldsWindow(KeyAfter(log, window).value, log, window)
  {
    hide Since, Hit, HoldsWindow;
    var before, now := log[..|log| - 1], log[|log| - 1];
    if before == [] {
    } else {
      SetIsTheWindow(before, window);
    }
    assert log == before + [now];
    HitHoldsWindow(KeyAfter(before, window), before, now, window);
  }

  lemma HitHoldsWindow(key: Option<Key>, before: seq<real>, now: real, window: nat)
    requires NonDecreasing(before + [now]) && (key.Some? <==> before != [])
    requires key.Some? ==> HoldsWindow(key.value, before, window)
    ensures HoldsWindow(Hit(key, now, window), before + [now], window)
  {
    hide Since, Hit, NonDecreasing;
    SinceGrows(before, now, now - window as real);
    HitRenews(key, now, window);
    if key == None {
      FirstRequest(now, window);
    } else {
      WindowMoves(key.value, before, now, window);
    }
  }

  lemma HitRenews(key: Option<Key>, now: real, window: nat)
    ensures Hit(key, now, window).expiresAt == now + (window + TTL_SLACK) as real
  {
  }

  lemma FirstRequest(now: real, window: nat)
    ensures Hit(None, now, window).members == {now} && Since([], now - window as real) == {}
  {
  }

  ghost predicate HoldsWindow(key: Key, log: seq<real>, window: nat)
    requires log != []
  {
    var now := log[|log| - 1];
    key.members == Since(log, now - window as real) + {now} && key.expiresAt == now + (window + TTL_SLACK) as real
  }

  lemma SinceGrows(log: seq<real>, now: real, lo: real)
    ensures Since(log + [now], lo) == Since(log, lo) + if now > lo then {now} else {}
  {
    var all := log + [now];
    forall t | t in Since(log, lo) ensures t in Since(all, lo) {
      var i :| 0 <= i < |log| && log[i] > lo && log[i] == t;
      assert all[i] == t;
    }
    if now > lo {
      assert all[|log|] == now;
    }
  }

  lemma SinceNarrows(log: seq<real>, wide: real, narrow: real)
    requires wide <= narrow && forall i :: 0 <= i < |log| ==> log[i] >= 0.0
    ensures (set t | t in Since(log, wide) && !(0.0 <= t <= narrow)) == Since(log, narrow)
  {
  }

  lemma SinceIsEmpty(log: seq<real>, lo: real)
    requires forall i :: 0 <= i < |log| ==> log[i] <= lo
    ensures Since(log, lo) == {}
  {
  }

  /** Pruning one window down to the next loses nothing, whether or not the key has expired. */
  lemma WindowMoves(key: Key, before: seq<real>, now: real, window: nat)
    requires before != [] && NonDecreasing(before + [now]) && HoldsWindow(key, before, window)
    ensures Hit(Some(key), now, window).members == Since(before, now - window as real) + {now}
  {
    hide Since;
    var all, last, lo := before + [now], before[|before| - 1], now - window as real;
    assert all[|before| - 1] == last && all[|before|] == now;
    assert forall i :: 0 <= i < |before| ==> all[i] == before[i];
    if key.expiresAt <= now {
      SinceIsEmpty(before, lo);
    } else {
      SinceNarrows(before, last - window as real, lo);
      if last > lo {
        LastCounts(before, lo);
      }
    }
  }

  lemma LastCounts(log: seq<real>, lo: real)
    requires log != [] && log[|log| - 1] > lo
    ensures log[|log| - 1] in Since(log, lo)
  {
  }

  /** Expiry never changes a count: a set that is only ever pruned has the same members. */
  function PrunedOnly(log: seq<real>, window: nat): set<real> {
    if log == [] then {}
    else
      var now := log[|log| - 1];
      var stored := PrunedOnly(log[..|log| - 1], window);
      (set t | t in stored && !(0.0 <= t <= now - window as real)) + {now}
  }

  lemma {:induction false} ExpiryNeverMatters(log: seq<real>, window: nat)
    requires NonDecreasing(log) && log != []
    ensures KeyAfter(log, window).value.members == PrunedOnly(log, window)
  {
    var before := log[..|log| - 1];
    if before == [] {
    } else {
      ExpiryNeverMatters(before, window);
      SetIsTheWindow(before, window);
      assert before[|before| - 1] == log[|log| - 2];
    }
  }

  // ---------------------------------------------------------------- counting requests

  ghost predicate DistinctSince(log: seq<real>, lo: real) {
    forall i, j :: 0 <= i < j < |log| && log[i] > lo ==> log[i] != log[j]
  }

  lemma DistinctGrows(log: seq<real>, now: real, lo: real)
    ensures DistinctSince(log + [now], lo) <==> DistinctSince(log, lo) && (now > lo ==> now !in Since(log, lo))
  {
    var all := log + [now];
    assert forall i :: 0 <= i < |log| ==> all[i] == log[i];
    if i :| 0 <= i < |log| && log[i] > lo && log[i] == now {
      assert all[i] == all[|log|];
    }
  }

  lemma {:induction false} DistinctTimesAreCounted(log: seq<real>, lo: real)
    ensures |Since(log, lo)| <= CountSince(log, lo)
    ensures |Since(log, lo)| == CountSince(log, lo) <==> DistinctSince(log, lo)
  {
    if log == [] {
    } else {
      hide Since, DistinctSince;
      var before, now := log[..|log| - 1], log[|log| - 1];
      DistinctTimesAreCounted(before, lo);
      assert log == before + [now];
      SinceGrows(before, now, lo);
      DistinctGrows(before, now, lo);
    }
  }

  /** The limiter counts every request of the window exactly when no two of them share a
      timestamp; otherwise it counts fewer. */
  lemma CountIsExactExactlyWhen(log: seq<real>, window: nat)
    requires NonDecreasing(log) && log != [] && window > 0
    ensures var lo := log[|log| - 1] - window as real;
            var counted := |KeyAfter(log, window).value.members|;
            counted <= CountSince(log, lo) && (counted == CountSince(log, lo) <==> DistinctSince(log, lo))
  {
    hide Since, DistinctSince, KeyAfter, CountSince;
    var lo := log[|log| - 1] - window as real;
    SetIsTheWindow(log, window);
    DistinctTimesAreCounted(log, lo);
    LastCounts(log, lo);
    assert Since(log, lo) + {log[|log| - 1]} == Since(log, lo);
  }

  /** Requests that share one timestamp count once, so any burst of them is let through. */
  lemma SameInstantBurstIsAdmitted(n: nat, t: real, window: nat)
    requires t >= 0.0 && n > 0
    ensures var log := seq(n, _ => t); Admitted(log, n - 1, window, 1)
  {
    var log := seq(n, _ => t);
    assert log[..n] == log;
    SetIsTheWindow(log, window);
    assert Since(log, t - window as real) + {t} == {t};
  }

  lemma {:induction false} CountByPosition(log: seq<real>, lo: real, m: nat)
    requires Increasing(log) && m < |log|
    ensures log[m] > lo ==> CountSince(log, lo) >= |log| - m
    ensures log[m] <= lo ==> CountSince(log, lo) <= |log| - m - 1
  {
    var before := log[..|log| - 1];
    if m < |before| {
      CountByPosition(before, lo, m);
    } else {
      EarlierCountNothing(before, log[m], lo);
    }
  }

  lemma {:induction false} EarlierCountNothing(log: seq<real>, later: real, lo: real)
    requires forall i :: 0 <= i < |log| ==> log[i] < later
    ensures later <= lo ==> CountSince(log, lo) == 0
    ensures CountSince(log, lo) <= |log|
  {
    if log == [] {
    } else {
      EarlierCountNothing(log[..|log| - 1], later, lo);
    }
  }

  lemma IncreasingIsDistinct(log: seq<real>, lo: real)
    requires Increasing(log)
    ensures DistinctSince(log, lo) && NonDecreasing(log)
  {
  }

  /** With strictly increasing times a request is let through exactly when the one `limit`
      places before it, let through or not, has left the window. */
  lemma AdmittedExactlyWhen(log: seq<real>, i: nat, window: nat, limit: nat)
    requires Increasing(log) && i < |log|
    ensures Admitted(log, i, window, limit) <==> limit > 0 && (i < limit || log[i - limit] <= log[i] - window as real)
  {
    hide Since, DistinctSince, KeyAfter, CountSince;
    var sofar, lo := log[..i + 1], log[i] - window as real;
    SetIsTheWindow(sofar, window);
    IncreasingIsDistinct(sofar, lo);
    assert log[i] in KeyAfter(sofar, window).value.members;
    if window == 0 {
      SinceIsEmpty(sofar, lo);
    } else {
      CountIsExactExactlyWhen(sofar, window);
      LogFits(sofar, lo);
      if 0 < limit <= i {
        CountByPosition(sofar, lo, i - limit);
      }
    }
  }

  lemma {:induction false} LogFits(log: seq<real>, lo: real)
    ensures CountSince(log, lo) <= |log|
  {
    if log == [] {
    } else {
      LogFits(log[..|log| - 1], lo);
    }
  }

  // ---------------------------------------------------------------- the promise

  /** The indices of the requests let through at times in (from, from + window]. */
  function AdmittedWithin(log: seq<real>, from: real, window: nat, limit: nat): set<nat> {
    set i: nat | i < |log| && from < log[i] <= from + window as real && Admitted(log, i, window, limit)
  }

  lemma {:induction false} RangeSize(s: set<nat>, m: nat, n: nat)
    requires m <= n && forall i :: i in s ==> m <= i < n
    ensures |s| <= n - m
  {
    if s != {} && m < n {
      RangeSize(s - {n - 1}, m, n - 1);
      assert n - 1 in s ==> s == (s - {n - 1}) + {n - 1};
      assert n - 1 !in s ==> s == s - {n - 1};
    } else {
      assert s == {};
    }
  }

  lemma {:induction false} Extremes(s: set<nat>) returns (lo: nat, hi: nat)
    requires s != {}
    ensures lo in s && hi in s && forall i :: i in s ==> lo <= i <= hi
  {
    var x :| x in s;
    if s == {x} {
      lo, hi := x, x;
    } else {
      var rest := s - {x};
      assert rest != {};
      lo, hi := Extremes(rest);
      assert forall i :: i in s ==> i in rest || i == x;
      lo, hi := if x < lo then x else lo, if x > hi then x else hi;
    }
  }

  /** However requests arrive, no window-long interval sees more than the limit let through. */
  lemma AtMostTheLimit(log: seq<real>, from: real, window: nat, limit: nat)
    requires Increasing(log)
    ensures |AdmittedWithin(log, from, window, limit)| <= limit
  {
    var s := AdmittedWithin(log, from, window, limit);
    if s != {} {
      var m, i := Extremes(s);
      RangeSize(s, m, i + 1);
      AdmittedExactlyWhen(log, i, window, limit);
      assert log[m] > log[i] - window as real;
    }
  }

  /** The instants in (from, from + window] at which some request was let through. */
  function AdmittedInstants(log: seq<real>, from: real, window: nat, limit: nat): set<real> {
    set i | i in AdmittedWithin(log, from, window, limit) :: log[i]
  }

  lemma ArrivalCounts(log: seq<real>, i: nat, lo: real)
    requires i < |log| && log[i] > lo
    ensures log[i] in Since(log, lo)
  {
  }

  /** All the instants lie in the window of the last request let through. */
  lemma InstantsLieInWindow(log: seq<real>, from: real, window: nat, limit: nat, last: nat)
    requires NonDecreasing(log) && last in AdmittedWithin(log, from, window, limit)
    requires forall i :: i in AdmittedWithin(log, from, window, limit) ==> i <= last
    ensures AdmittedInstants(log, from, window, limit) <= Since(log[..last + 1], log[last] - window as real)
  {
    hide Since, Admitted;
    var sofar, lo := log[..last + 1], log[last] - window as real;
    forall t | t in AdmittedInstants(log, from, window, limit) ensures t in Since(sofar, lo) {
      var i :| i in AdmittedWithin(log, from, window, limit) && log[i] == t;
      ArrivalCounts(sofar, i, lo);
    }
  }

  lemma PrefixNonDecreasing(log: seq<real>, n: nat)
    requires NonDecreasing(log) && n <= |log|
    ensures NonDecreasing(log[..n])
  {
  }

  /** With equal timestamps allowed the promise holds for instants: no window-long interval has
      more than the limit of distinct instants at which requests were let through. */
  lemma AtMostTheLimitOfInstants(log: seq<real>, from: real, window: nat, limit: nat)
    requires NonDecreasing(log)
    ensures |AdmittedInstants(log, from, window, limit)| <= limit
  {
    hide AdmittedInstants, Since, KeyAfter, NonDecreasing;
    var s := AdmittedWithin(log, from, window, limit);
    if s == {} {
      NoInstants(log, from, window, limit);
    } else {
      var _, last := Extremes(s);
      InstantsLieInWindow(log, from, window, limit, last);
      PrefixNonDecreasing(log, last + 1);
      SetIsTheWindow(log[..last + 1], window);
      SubsetSize(AdmittedInstants(log, from, window, limit), KeyAfter(log[..last + 1], window).value.members);
    }
  }

  lemma NoInstants(log: seq<real>, from: real, window: nat, limit: nat)
    requires AdmittedWithin(log, from, window, limit) == {}
    ensures AdmittedInstants(log, from, window, limit) == {}
  {
  }

  // ---------------------------------------------------------------- the class

  class Limiter {
    const maxRequests: nat
    const windowSeconds: nat
    var redis: map<string, Key>

    constructor (maxRequests: nat, windowSeconds: nat)
      ensures this.maxRequests == maxRequests && this.windowSeconds == windowSeconds && redis == map[]
    {
      this.maxRequests := maxRequests;
      this.windowSeconds := windowSeconds;
      redis := map[];
    }

    function Find(client: string): Option<Key>
      reads this`redis
    {
      if client in redis then Some(redis[client]) else None
    }

    /** One request of one client: prune, add, count, renew the expiry.  Clients do not affect
        each other, and without Redis everything is let through. */
    method Check(client: string, now: real, available: bool) returns (admitted: bool)
      modifies this`redis
      ensures !available ==> admitted && redis == old(redis)
      ensures available ==>
                var key := Hit(old(Find(client)), now, windowSeconds);
                && redis == old(redis)[client := key]
                && (admitted <==> |key.members| <= maxRequests)
    {
      if !available {
        return true;
      }
      var windowStart := now - windowSeconds as real;
      var members := Stored(Find(client), now);
      members := set t | t in members && !(0.0 <= t <= windowStart);
      members := members + {now};
      var requestCount := |members|;
      redis := redis[client := Key(members, now + (windowSeconds + TTL_SLACK) as real)];
      admitted := requestCount <= maxRequests;
    }
  }
}
