/** The coordination server's sliding-window limiter: its queues against the full history of requests. */
module RateLimiters {
  import opened Basics

  // Times and durations are in milliseconds.
  datatype Limit = Limit(maxRequests: nat, window: nat)

  datatype Bucket = Register | Heartbeat | Token | Default

  function LimitOf(b: Bucket): Limit {
    match b
    case Register => Limit(5, 60_000)
    case Heartbeat => Limit(30, 60_000)
    case Token => Limit(10, 60_000)
    case Default => Limit(120, 60_000)
  }

  const GRACE: nat := 50

  datatype Key = Key(peer: nat, bucket: Bucket)

  // ---- The rule over the whole history ----------------------------------------------------------

  /** How many of the logged admissions lie within the window that ends now. */
  function Recent(log: seq<int>, window: nat, now: int): nat {
    if log == [] then 0
    else Recent(log[..|log| - 1], window, now) + (if Since(now, log[|log| - 1]) < window then 1 else 0)
  }

  predicate Free(log: seq<int>, limit: Limit, now: int) {
    Recent(log, limit.window, now) < limit.maxRequests
  }

  /** The admissions among the given requests: one is admitted if and only if fewer than the maximum of
      earlier ones were admitted within the window before it. */
  function Admissions(requests: seq<int>, limit: Limit): seq<int> {
    if requests == [] then []
    else
      var log := Admissions(requests[..|requests| - 1], limit);
      var now := requests[|requests| - 1];
      if Free(log, limit, now) then log + [now] else log
  }

  predicate Ascending(s: seq<int>) {
    forall i, j | 0 <= i < j < |s| :: s[i] <= s[j]
  }

  /** Entries of the log in the interval of the given length from t on. */
  function Within(log: seq<int>, t: int, length: nat): nat {
    if log == [] then 0
    else Within(log[..|log| - 1], t, length) + (if t <= log[|log| - 1] < t + length then 1 else 0)
  }

  predicate UpTo(s: seq<int>, now: int) {
    forall i | 0 <= i < |s| :: s[i] <= now
  }

  lemma {:induction false} AdmissionsAscending(requests: seq<int>, limit: Limit, now: int)
    requires Ascending(requests) && UpTo(requests, now)
    ensures Ascending(Admissions(requests, limit)) && UpTo(Admissions(requests, limit), now)
  {
    if requests == [] {
    } else {
      AdmissionsAscending(requests[..|requests| - 1], limit, requests[|requests| - 1]);
    }
  }

  lemma {:induction false} WithinIsRecent(log: seq<int>, t: int, window: nat, now: int)
    requires t <= now < t + window && UpTo(log, now)
    ensures Within(log, t, window) <= Recent(log, window, now)
  {
    if log == [] {
    } else {
      WithinIsRecent(log[..|log| - 1], t, window, now);
    }
  }

  /** Whenever and however requests arrive, no interval as long as the window holds more admissions than the
      maximum. */
  lemma {:induction false} WindowHoldsAtMostMax(requests: seq<int>, limit: Limit, t: int)
    requires Ascending(requests)
    ensures Within(Admissions(requests, limit), t, limit.window) <= limit.maxRequests
  {
    if requests == [] {
    } else {
      var k := |requests| - 1;
      var log, now := Admissions(requests[..k], limit), requests[k];
      AscendingPrefix(requests);
      hide Ascending, Since;
      WindowHoldsAtMostMax(requests[..k], limit, t);
      AdmissionsAscending(requests[..k], limit, now);
      assert (log + [now])[..|log|] == log;
      if Free(log, limit, now) && t <= now < t + limit.window { WithinIsRecent(log, t, limit.window, now); }
    }
  }

  function PerMinute(b: Bucket): nat {
    match b
    case Register => 5
    case Heartbeat => 30
    case Token => 10
    case Default => 120
  }

  /** No client is let through more than 5 times for a registration, 30 for a heartbeat, 10 for a token and 120 for
      anything else in a minute, whenever the minute begins. */
  lemma MinuteHoldsAtMost(requests: seq<int>, b: Bucket, t: int)
    requires Ascending(requests)
    ensures Within(Admissions(requests, LimitOf(b)), t, 60_000) <= PerMinute(b)
  {
    WindowHoldsAtMostMax(requests, LimitOf(b), t);
  }

  /** A request is let through if and only if the minute before it holds fewer than that. */
  lemma MinuteIsUsed(requests: seq<int>, b: Bucket, now: int)
    requires Ascending(requests + [now])
    ensures Admissions(requests + [now], LimitOf(b)) ==
            var log := Admissions(requests, LimitOf(b));
            if Recent(log, 60_000, now) < PerMinute(b)
            then log + [now] else log
  {
    assert (requests + [now])[..|requests|] == requests;
  }

  lemma AscendingPrefix(s: seq<int>)
    requires Ascending(s) && s != []
    ensures Ascending(s[..|s| - 1]) && UpTo(s[..|s| - 1], s[|s| - 1])
  {
  }

  // ---- The queue ---------------------------------------------------------------------------------

  /** The queue is the tail of the log, and what it has dropped is out of every window from now on. */
  ghost predicate Refines(queue: seq<int>, log: seq<int>, limit: Limit, now: int) {
    && Ascending(log) && UpTo(log, now)
    && |queue| <= |log| && queue == log[|log| - |queue|..] && |queue| <= limit.maxRequests
    && forall i | 0 <= i < |log| - |queue| :: Since(now, log[i]) >= limit.window
  }

  lemma {:induction false} RecentSplit(log: seq<int>, k: nat, window: nat, now: int)
    requires k <= |log|
    requires forall i | 0 <= i < k :: Since(now, log[i]) >= window
    requires forall i | k <= i < |log| :: Since(now, log[i]) < window
    ensures Recent(log, window, now) == |log| - k
  {
    if log == [] {
    } else {
      var front := log[..|log| - 1];
      RecentSplit(front, if k < |log| then k else |front|, window, now);
    }
  }

  lemma {:induction false} RecentAtMost(log: seq<int>, k: nat, window: nat, now: int)
    requires k <= |log| && forall i | 0 <= i < k :: Since(now, log[i]) >= window
    ensures Recent(log, window, now) <= |log| - k
  {
    if log == [] {
    } else {
      RecentAtMost(log[..|log| - 1], if k < |log| then k else |log| - 1, window, now);
    }
  }

  /** With a full queue and no other traffic, room returns exactly when the oldest entry leaves the window. */
  lemma RoomReturns(queue: seq<int>, log: seq<int>, limit: Limit, now: int, t: int)
    requires Refines(queue, log, limit, now) && now <= t && queue != [] && |queue| == limit.maxRequests
    requires forall i | 0 <= i < |queue| :: Since(now, queue[i]) < limit.window
    ensures Free(log, limit, t) <==> t >= queue[0] + limit.window
  {
    var k := |log| - |queue|;
    assert queue[0] == log[k];
    if t >= queue[0] + limit.window {
      RecentAtMost(log, k + 1, limit.window, t);
    } else {
      forall i | k <= i < |log| ensures Since(t, log[i]) < limit.window { assert log[k] <= log[i]; }
      RecentSplit(log, k, limit.window, t);
    }
  }

  function Entries(m: map<Key, seq<int>>, key: Key): seq<int> {
    if key in m then m[key] else []
  }

  /** Every key's queue refines the admissions among that key's requests, at time `clock`. */
  ghost predicate Consistent(queues: map<Key, seq<int>>, requests: map<Key, seq<int>>, clock: int) {
    forall key: Key :: KeyOk(queues, requests, key, clock)
  }

  ghost predicate KeyOk(queues: map<Key, seq<int>>, requests: map<Key, seq<int>>, key: Key, clock: int) {
    var r, limit := Entries(requests, key), LimitOf(key.bucket);
    Ascending(r) && UpTo(r, clock) && Refines(Entries(queues, key), Admissions(r, limit), limit, clock)
  }

  lemma RecordedKeepsAll(queues: map<Key, seq<int>>, requests: map<Key, seq<int>>, clock: int, key: Key,
                         queue: seq<int>, now: int)
    requires Consistent(queues, requests, clock) && clock <= now
    requires var r, limit := Entries(requests, key) + [now], LimitOf(key.bucket);
             Refines(queue, Admissions(r, limit), limit, now)
    ensures Consistent(queues[key := queue], requests[key := Entries(requests, key) + [now]], now)
  {
    hide Admissions, Refines, Ascending, UpTo;
    var queues', requests' := queues[key := queue], requests[key := Entries(requests, key) + [now]];
    ReadKey(queues, requests, key, clock, now);
    RequestsNext(Entries(requests, key), now, LimitOf(key.bucket));
    forall other: Key ensures KeyOk(queues', requests', other, now) {
      if other != key { ReadKey(queues, requests, other, clock, now); }
    }
  }

  lemma ReadKey(queues: map<Key, seq<int>>, requests: map<Key, seq<int>>, key: Key, clock: int, now: int)
    requires Consistent(queues, requests, clock) && clock <= now
    ensures var r, limit := Entries(requests, key), LimitOf(key.bucket);
            Ascending(r) && UpTo(r, now) && Refines(Entries(queues, key), Admissions(r, limit), limit, now)
  {
    assert KeyOk(queues, requests, key, clock);
  }

  class RateLimiter {
    var state: map<Key, seq<int>>
    /** Every request so far, admitted or not, and the time of the last. */
    ghost var requests: map<Key, seq<int>>
    ghost var clock: int

    constructor (now: int)
      ensures Valid() && clock == now && forall key :: Requests(key) == []
    {
      state, requests, clock := map[], map[], now;
    }

    ghost function Requests(key: Key): seq<int>
      reads this
    {
      Entries(requests, key)
    }

    ghost function Admitted(key: Key): seq<int>
      reads this
    {
      Admissions(Requests(key), LimitOf(key.bucket))
    }

    ghost predicate Valid()
      reads this
    {
      Consistent(state, requests, clock)
    }

    /** None when the request is admitted, otherwise how long to wait.  The decision is the rule over the whole
        history of this key alone.  After the wait there is room if nothing else arrives, and there is none
        before the last 50 ms of it. */
    method Check(peer: nat, bucket: Bucket, now: int) returns (retry: Option<nat>)
      requires Valid() && clock <= now
      modifies this
      ensures Valid() && clock == now
      ensures var key := Key(peer, bucket);
              && requests == old(requests)[key := old(Requests(key)) + [now]]
              && (retry.None? <==> Free(old(Admitted(key)), LimitOf(bucket), now))
              && Admitted(key) == old(Admitted(key)) + (if retry.None? then [now] else [])
      ensures forall other | other != Key(peer, bucket) :: Admitted(other) == old(Admitted(other))
      ensures retry.Some? ==>
                forall t | now <= t :: Free(Admitted(Key(peer, bucket)), LimitOf(bucket), t)
                                       <==> t >= now + retry.value - 50
    {
      hide Admissions, Refines, Free, Ascending, UpTo, Consistent;
      var key, limit := Key(peer, bucket), LimitOf(bucket);
      ghost var log, before := Admitted(key), Requests(key);
      ReadKey(state, requests, key, clock, now);
      RequestsNext(before, now, limit);
      var queue := Trim(Entries(state, key), log, limit, now);
      retry := None;
      if |queue| >= limit.maxRequests {
        retry := Some(WaitFor(queue, log, limit, now));
      } else {
        PushRefines(queue, log, limit, now);
        queue := queue + [now];
      }
      RecordedKeepsAll(state, requests, clock, key, queue, now);
      state := state[key := queue];
      requests := requests[key := before + [now]];
      clock := now;
    }
  }

  /** Drop the entries that have left the window. */
  method Trim(queue: seq<int>, ghost log: seq<int>, limit: Limit, now: int) returns (kept: seq<int>)
    requires Refines(queue, log, limit, now)
    ensures Refines(kept, log, limit, now) && |kept| == Recent(log, limit.window, now)
    ensures forall i | 0 <= i < |kept| :: Since(now, kept[i]) < limit.window
    ensures Free(log, limit, now) <==> |kept| < limit.maxRequests
  {
    kept := queue;
    while kept != [] && Since(now, kept[0]) >= limit.window
      invariant Refines(kept, log, limit, now)
      decreases |kept|
    {
      kept := kept[1..];
    }
    ghost var k := |log| - |kept|;
    forall i | k <= i < |log| ensures Since(now, log[i]) < limit.window {
      assert log[k] <= log[i] && kept[0] == log[k];
    }
    RecentSplit(log, k, limit.window, now);
  }

  function WaitFor(queue: seq<int>, ghost log: seq<int>, limit: Limit, now: int): (retry: nat)
    requires Refines(queue, log, limit, now) && |queue| >= limit.maxRequests > 0
    requires forall i | 0 <= i < |queue| :: Since(now, queue[i]) < limit.window
    ensures forall t | now <= t :: Free(log, limit, t) <==> t >= now + retry - 50
  {
    assert forall t | now <= t :: Free(log, limit, t) <==> t >= queue[0] + limit.window by {
      forall t | now <= t ensures Free(log, limit, t) <==> t >= queue[0] + limit.window {
        RoomReturns(queue, log, limit, now, t);
      }
    }
    (if Since(now, queue[0]) <= limit.window then limit.window - Since(now, queue[0]) else 0) + GRACE
  }

  lemma PushRefines(queue: seq<int>, log: seq<int>, limit: Limit, now: int)
    requires Refines(queue, log, limit, now) && |queue| < limit.maxRequests
    ensures Refines(queue + [now], log + [now], limit, now)
  {
  }

  lemma RequestsNext(before: seq<int>, now: int, limit: Limit)
    requires Ascending(before) && UpTo(before, now)
    ensures Ascending(before + [now]) && UpTo(before + [now], now)
    ensures var log := Admissions(before, limit);
            Admissions(before + [now], limit) == if Free(log, limit, now) then log + [now] else log
  {
    assert (before + [now])[..|before|] == before;
  }
}
