/** The sliding-window limiter of sparkscope/security.py. */
module RateLimit {
  import opened Options

  type Hits = map<string, seq<real>>

  const PURGE_ABOVE := 10000

  /** `while queue and queue[0] < horizon: queue.popleft()`. */
  function Trim(queue: seq<real>, horizon: real): seq<real>
  {
    if queue != [] && queue[0] < horizon then Trim(queue[1..], horizon) else queue
  }

  /** `r` is the end of the queue from its first hit at or after the horizon. */
  predicate IsTrimmed(r: seq<real>, queue: seq<real>, horizon: real)
  {
    && |r| <= |queue|
    && (forall i :: 0 <= i < |r| ==> r[i] == queue[i + (|queue| - |r|)])
    && (r != [] ==> r[0] >= horizon)
    && (forall i :: 0 <= i < |queue| - |r| ==> queue[i] < horizon)
  }

  lemma {:induction false} TrimLonger(r: seq<real>, queue: seq<real>, horizon: real)
    requires queue != [] && queue[0] < horizon && IsTrimmed(r, queue[1..], horizon)
    ensures IsTrimmed(r, queue, horizon)
  {
    var rest := queue[1..];
    forall i | 0 <= i < |r|
      ensures r[i] == queue[i + (|queue| - |r|)]
    {
      assert rest[i + (|rest| - |r|)] == queue[i + (|queue| - |r|)];
    }
    forall i | 0 <= i < |queue| - |r|
      ensures queue[i] < horizon
    {
      assert i > 0 ==> queue[i] == rest[i - 1];
    }
  }

  lemma {:induction false} TrimMeaning(queue: seq<real>, horizon: real)
    ensures IsTrimmed(Trim(queue, horizon), queue, horizon)
  {
    if queue != [] && queue[0] < horizon {
      TrimMeaning(queue[1..], horizon);
      TrimLonger(Trim(queue[1..], horizon), queue, horizon);
    }
  }

  function QueueOf(hits: Hits, key: string): seq<real>
  {
    if key in hits then hits[key] else []
  }

  predicate Accepts(hits: Hits, key: string, limit: nat, seconds: real, now: real)
  {
    |Trim(QueueOf(hits, key), now - seconds)| < limit
  }

  predicate Live(queue: seq<real>, horizon: real)
  {
    queue != [] && queue[|queue| - 1] > horizon
  }

  /** Does this call run the purge? */
  predicate Purges(hits: Hits, key: string, limit: nat, seconds: real, now: real)
  {
    Accepts(hits, key, limit, seconds, now) && |hits[key := [now]].Keys| > PURGE_ABOVE
  }

  function Purged(hits: Hits, horizon: real): Hits
  {
    map k | k in hits && Live(hits[k], horizon) :: hits[k]
  }

  /** The table after a call, given what the loop left in the key's queue. */
  function Stored(hits: Hits, key: string, queue: seq<real>, limit: nat, seconds: real, now: real): Hits
  {
    if |queue| >= limit then hits[key := queue]
    else
      var appended := hits[key := queue + [now]];
      if |appended.Keys| > PURGE_ABOVE then Purged(appended, now - seconds) else appended
  }

  function Next(hits: Hits, key: string, limit: nat, seconds: real, now: real): Hits
  {
    Stored(hits, key, Trim(QueueOf(hits, key), now - seconds), limit, seconds, now)
  }

  lemma {:induction false} StoredUnder(hits: Hits, key: string, queue: seq<real>, limit: nat, seconds: real, now: real,
                                       k: string)
    ensures var after := Stored(hits, key, queue, limit, seconds, now);
            var held := if k != key then QueueOf(hits, k) else if |queue| < limit then queue + [now] else queue;
            var purged := |queue| < limit && |hits.Keys + {key}| > 10000;
            && (k in after <==>
                  (k in hits || k == key) && (purged ==> held != [] && held[|held| - 1] > now - seconds))
            && (k in after ==> after[k] == held)
  {
    assert hits[key := queue + [now]].Keys == hits.Keys + {key};
  }

  /** What a call leaves under any key. The key called keeps what the loop kept, and the call's own time if that leaves room;
      only an accepted call that finds more than 10000 keys purges, and a purge drops exactly the keys without a hit in the
      half-open window. */
  lemma {:induction false} CallStores(hits: Hits, key: string, limit: nat, seconds: real, now: real, k: string)
    ensures var (after, queue) := (Next(hits, key, limit, seconds, now), Trim(QueueOf(hits, key), now - seconds));
            var held := if k != key then QueueOf(hits, k) else if |queue| < limit then queue + [now] else queue;
            var purged := |queue| < limit && |hits.Keys + {key}| > 10000;
            && (k in after <==>
                  (k in hits || k == key) && (purged ==> held != [] && held[|held| - 1] > now - seconds))
            && (k in after ==> after[k] == held)
  {
    StoredUnder(hits, key, Trim(QueueOf(hits, key), now - seconds), limit, seconds, now, k);
  }

  class RateLimit {
    var hits: Hits

    constructor ()
      ensures hits == map[]
    {
      hits := map[];
    }

    method Allow(key: string, limit: nat, seconds: real, now: real) returns (ok: bool)
      modifies this
      ensures ok <==> Accepts(old(hits), key, limit, seconds, now)
      ensures hits == Next(old(hits), key, limit, seconds, now)
    {
      var queue := PopLeft(QueueOf(hits, key), now - seconds);
      if |queue| >= limit {
        hits := hits[key := queue];
        return false;
      }
      hits := hits[key := queue + [now]];
      if |hits.Keys| > PURGE_ABOVE {
        hits := Purged(hits, now - seconds);
      }
      return true;
    }

    /** The loop that drops expired hits. */
    static method PopLeft(hits: seq<real>, horizon: real) returns (queue: seq<real>)
      ensures queue == Trim(hits, horizon)
    {
      queue := hits;
      while queue != [] && queue[0] < horizon
        invariant Trim(hits, horizon) == Trim(queue, horizon)
        decreases |queue|
      {
        queue := queue[1..];
      }
    }
  }

  // ---------------------------------------------------------------- runs

  datatype Call = Call(key: string, now: real)

  /** The queue a call leaves for any key, unless the purge takes it; `trimmed` is what the loop left in its own. */
  function Held(hits: Hits, c: Call, trimmed: seq<real>, limit: nat, key: string): seq<real>
  {
    if key != c.key then QueueOf(hits, key) else if |trimmed| >= limit then trimmed else trimmed + [c.now]
  }

  /** The last hit is exactly one window old: outside the half-open window, inside the closed one. */
  predicate AtBoundary(queue: seq<real>, horizon: real)
  {
    queue != [] && queue[|queue| - 1] == horizon
  }

  /** Does this call run a purge that finds the key's last hit exactly one window old? Then `v[-1] > now - seconds` fails,
      and the purge drops a hit that the loop would have kept. */
  predicate DropsBoundary(hits: Hits, c: Call, limit: nat, seconds: real, key: string)
  {
    && Purges(hits, c.key, limit, seconds, c.now)
    && AtBoundary(Held(hits, c, Trim(QueueOf(hits, c.key), c.now - seconds), limit, key), c.now - seconds)
  }

  /** The limiter with its past: the times of the calls it accepted, by key. */
  datatype World = World(hits: Hits, accepted: map<string, seq<real>>)

  const Initial := World(map[], map[])

  function Exec(w: World, c: Call, limit: string -> nat, seconds: real): World
  {
    World(Next(w.hits, c.key, limit(c.key), seconds, c.now),
          if Accepts(w.hits, c.key, limit(c.key), seconds, c.now)
          then w.accepted[c.key := QueueOf(w.accepted, c.key) + [c.now]] else w.accepted)
  }

  function After(calls: seq<Call>, limit: string -> nat, seconds: real): World
  {
    if calls == [] then Initial
    else Exec(After(calls[..|calls| - 1], limit, seconds), calls[|calls| - 1], limit, seconds)
  }

  /** Some call of the run dropped the key at the boundary. */
  predicate EverDropped(calls: seq<Call>, limit: string -> nat, seconds: real, key: string)
  {
    && calls != []
    && var front, c := calls[..|calls| - 1], calls[|calls| - 1];
    && (EverDropped(front, limit, seconds, key)
        || DropsBoundary(After(front, limit, seconds).hits, c, limit(c.key), seconds, key))
  }

  /** `time.monotonic()`. */
  predicate Monotonic(calls: seq<Call>)
  {
    forall i, j :: 0 <= i < j < |calls| ==> calls[i].now <= calls[j].now
  }

  // ---------------------------------------------------------------- invariant

  predicate Ascending(s: seq<real>)
  {
    forall i, j :: 0 <= i < j < |s| ==> s[i] <= s[j]
  }

  /** `limit` accepted calls apart, two accepted calls are at least the window apart; strictly, while the key was not
      dropped at the boundary. */
  predicate Spaced(s: seq<real>, limit: nat, seconds: real, strict: bool)
  {
    forall i :: 0 <= i && i + limit < |s| ==> if strict then s[i] + seconds < s[i + limit] else s[i] + seconds <= s[i + limit]
  }

  /** The queue is the end of the accepted calls, and what it no longer holds has left the window. */
  predicate QueueOk(queue: seq<real>, accepted: seq<real>, horizon: real, strict: bool)
  {
    && |queue| <= |accepted|
    && (forall i :: 0 <= i < |queue| ==> queue[i] == accepted[i + (|accepted| - |queue|)])
    && forall i :: 0 <= i < |accepted| - |queue| ==> if strict then accepted[i] < horizon else accepted[i] <= horizon
  }

  /** The key's queue and accepted calls fit together, strictly if it was never dropped at the boundary. */
  ghost predicate KeyOk(w: World, key: string, limit: nat, seconds: real, clock: real, strict: bool)
  {
    TimesOk(QueueOf(w.accepted, key), limit, seconds, clock, strict)
    && QueueOk(QueueOf(w.hits, key), QueueOf(w.accepted, key), clock - seconds, strict)
  }

  predicate TimesOk(accepted: seq<real>, limit: nat, seconds: real, clock: real, strict: bool)
  {
    && Ascending(accepted)
    && (forall i :: 0 <= i < |accepted| ==> accepted[i] <= clock)
    && Spaced(accepted, limit, seconds, strict)
  }

  lemma {:induction false} TrimKeepsQueue(trimmed: seq<real>, queue: seq<real>, accepted: seq<real>, before: real,
                                          horizon: real, strict: bool)
    requires QueueOk(queue, accepted, before, strict) && before <= horizon && IsTrimmed(trimmed, queue, horizon)
    ensures QueueOk(trimmed, accepted, horizon, strict)
  {
    forall i | 0 <= i < |accepted| - |trimmed|
      ensures accepted[i] < horizon || (!strict && accepted[i] == horizon)
    {
      if i >= |accepted| - |queue| {
        assert accepted[i] == queue[i - (|accepted| - |queue|)];
      }
    }
  }

  /** Accepting on a queue shorter than the limit keeps the spacing. */
  lemma {:induction false} AcceptKeepsSpacing(queue: seq<real>, accepted: seq<real>, limit: nat, seconds: real,
                                              now: real, strict: bool)
    requires QueueOk(queue, accepted, now - seconds, strict) && |queue| < limit
    requires Spaced(accepted, limit, seconds, strict)
    ensures Spaced(accepted + [now], limit, seconds, strict)
    ensures QueueOk(queue + [now], accepted + [now], now - seconds, strict)
  {
  }

  /** What a call stores for any key: the held queue, unless it runs a purge and the last hit has left the half-open
      window. */
  lemma {:induction false} StoredQueue(hits: Hits, c: Call, trimmed: seq<real>, limit: nat, seconds: real, key: string)
    ensures var held := Held(hits, c, trimmed, limit, key);
            QueueOf(Stored(hits, c.key, trimmed, limit, seconds, c.now), key)
            == if |trimmed| < limit && |hits[c.key := [c.now]].Keys| > PURGE_ABOVE && !Live(held, c.now - seconds) then []
               else held
  {
    assert hits[c.key := trimmed + [c.now]].Keys == hits[c.key := [c.now]].Keys;
  }

  /** A trimmed queue, and an accepted call if it leaves room. */
  lemma {:induction false} HeldOk(trimmed: seq<real>, accepted: seq<real>, limit: nat, seconds: real, now: real,
                                  strict: bool)
    requires TimesOk(accepted, limit, seconds, now, strict) && QueueOk(trimmed, accepted, now - seconds, strict)
    ensures |trimmed| < limit ==>
              && TimesOk(accepted + [now], limit, seconds, now, strict)
              && QueueOk(trimmed + [now], accepted + [now], now - seconds, strict)
  {
    if |trimmed| < limit {
      AcceptKeepsSpacing(trimmed, accepted, limit, seconds, now, strict);
    }
  }

  /** Losing a queue whose last hit has left the half-open window, and the closed one too unless it is at the boundary. */
  lemma {:induction false} DroppedOk(queue: seq<real>, accepted: seq<real>, horizon: real, strict: bool)
    requires Ascending(accepted) && QueueOk(queue, accepted, horizon, strict) && !Live(queue, horizon)
    requires strict ==> !AtBoundary(queue, horizon)
    ensures QueueOk([], accepted, horizon, strict)
  {
    if queue != [] {
      assert accepted[|accepted| - 1] == queue[|queue| - 1];
    }
  }

  /** The key's accepted calls after a call. */
  function AcceptedAfter(w: World, c: Call, trimmed: seq<real>, limit: nat, key: string): seq<real>
  {
    if key == c.key && |trimmed| < limit then QueueOf(w.accepted, key) + [c.now] else QueueOf(w.accepted, key)
  }

  lemma {:induction false} HeldAfter(w: World, c: Call, key: string, trimmed: seq<real>, limit: nat, seconds: real,
                                     clock: real, strict: bool)
    requires seconds >= 0.0 && clock <= c.now && KeyOk(w, key, limit, seconds, clock, strict)
    requires key == c.key ==> QueueOk(trimmed, QueueOf(w.accepted, key), c.now - seconds, strict)
    ensures TimesOk(AcceptedAfter(w, c, trimmed, limit, key), limit, seconds, c.now, strict)
    ensures QueueOk(Held(w.hits, c, trimmed, limit, key), AcceptedAfter(w, c, trimmed, limit, key), c.now - seconds, strict)
  {
    LaterClock(w, key, limit, seconds, clock, c.now, strict);
    if key == c.key {
      HeldOk(trimmed, QueueOf(w.accepted, key), limit, seconds, c.now, strict);
    }
  }

  lemma {:induction false} LaterClock(w: World, key: string, limit: nat, seconds: real, clock: real, later: real,
                                      strict: bool)
    requires clock <= later && KeyOk(w, key, limit, seconds, clock, strict)
    ensures KeyOk(w, key, limit, seconds, later, strict)
  {
  }

  lemma {:induction false} TrimmedKey(w: World, key: string, trimmed: seq<real>, limit: nat, seconds: real,
                                      clock: real, now: real, strict: bool)
    requires clock <= now && KeyOk(w, key, limit, seconds, clock, strict)
    requires IsTrimmed(trimmed, QueueOf(w.hits, key), now - seconds)
    ensures QueueOk(trimmed, QueueOf(w.accepted, key), now - seconds, strict)
  {
    TrimKeepsQueue(trimmed, QueueOf(w.hits, key), QueueOf(w.accepted, key), clock - seconds, now - seconds, strict);
  }

  lemma {:induction false} OwnTrimmed(w: World, c: Call, trimmed: seq<real>, limit: nat, seconds: real, clock: real,
                                      strict: bool)
    requires clock <= c.now && KeyOk(w, c.key, limit, seconds, clock, strict)
    requires trimmed == Trim(QueueOf(w.hits, c.key), c.now - seconds)
    ensures QueueOk(trimmed, QueueOf(w.accepted, c.key), c.now - seconds, strict)
  {
    TrimMeaning(QueueOf(w.hits, c.key), c.now - seconds);
    TrimmedKey(w, c.key, trimmed, limit, seconds, clock, c.now, strict);
  }

  lemma {:induction false} ExecQueues(w: World, c: Call, limit: string -> nat, seconds: real, key: string)
    returns (trimmed: seq<real>)
    ensures trimmed == Trim(QueueOf(w.hits, c.key), c.now - seconds)
    ensures var w' := Exec(w, c, limit, seconds);
            && QueueOf(w'.accepted, key) == AcceptedAfter(w, c, trimmed, limit(c.key), key)
            && w'.hits == Stored(w.hits, c.key, trimmed, limit(c.key), seconds, c.now)
  {
    trimmed := Trim(QueueOf(w.hits, c.key), c.now - seconds);
    var w' := Exec(w, c, limit, seconds);
    assert Accepts(w.hits, c.key, limit(c.key), seconds, c.now) <==> |trimmed| < limit(c.key);
    assert w'.hits == Next(w.hits, c.key, limit(c.key), seconds, c.now);
  }

  /** What a call does to any key: `held` agrees with the accepted calls, and is stored unless a purge drops it. */
  lemma {:induction false} CallQueues(w: World, c: Call, key: string, limit: string -> nat, seconds: real, clock: real,
                                      strict: bool)
    returns (w': World, held: seq<real>, purges: bool)
    requires seconds >= 0.0 && clock <= c.now && KeyOk(w, key, limit(key), seconds, clock, strict)
    ensures w' == Exec(w, c, limit, seconds)
    ensures TimesOk(QueueOf(w'.accepted, key), limit(key), seconds, c.now, strict)
    ensures QueueOk(held, QueueOf(w'.accepted, key), c.now - seconds, strict)
    ensures QueueOf(w'.hits, key) == if purges && !Live(held, c.now - seconds) then [] else held
    ensures DropsBoundary(w.hits, c, limit(c.key), seconds, key) <==> purges && AtBoundary(held, c.now - seconds)
  {
    w' := Exec(w, c, limit, seconds);
    var trimmed := ExecQueues(w, c, limit, seconds, key);
    assert key == c.key ==> QueueOk(trimmed, QueueOf(w.accepted, key), c.now - seconds, strict) by {
      if key == c.key {
        OwnTrimmed(w, c, trimmed, limit(key), seconds, clock, strict);
      }
    }
    held, purges := HeldQueues(w, c, key, trimmed, limit(c.key), limit(key), seconds, clock, strict);
  }

  lemma {:induction false} HeldQueues(w: World, c: Call, key: string, trimmed: seq<real>, own: nat, limit: nat,
                                      seconds: real, clock: real, strict: bool)
    returns (held: seq<real>, purges: bool)
    requires seconds >= 0.0 && clock <= c.now && KeyOk(w, key, limit, seconds, clock, strict)
    requires key == c.key ==> own == limit
    requires trimmed == Trim(QueueOf(w.hits, c.key), c.now - seconds)
    requires key == c.key ==> QueueOk(trimmed, QueueOf(w.accepted, key), c.now - seconds, strict)
    ensures TimesOk(AcceptedAfter(w, c, trimmed, own, key), limit, seconds, c.now, strict)
    ensures QueueOk(held, AcceptedAfter(w, c, trimmed, own, key), c.now - seconds, strict)
    ensures QueueOf(Stored(w.hits, c.key, trimmed, own, seconds, c.now), key)
            == if purges && !Live(held, c.now - seconds) then [] else held
    ensures DropsBoundary(w.hits, c, own, seconds, key) <==> purges && AtBoundary(held, c.now - seconds)
  {
    held := Held(w.hits, c, trimmed, own, key);
    purges := |trimmed| < own && |w.hits[c.key := [c.now]].Keys| > PURGE_ABOVE;
    HeldAfter(w, c, key, trimmed, limit, seconds, clock, strict);
    StoredQueue(w.hits, c, trimmed, own, seconds, key);
    BoundaryOfHeld(w.hits, c, trimmed, own, seconds, key);
  }

  lemma {:induction false} BoundaryOfHeld(hits: Hits, c: Call, trimmed: seq<real>, own: nat, seconds: real, key: string)
    requires trimmed == Trim(QueueOf(hits, c.key), c.now - seconds)
    ensures DropsBoundary(hits, c, own, seconds, key)
            <==> |trimmed| < own && |hits[c.key := [c.now]].Keys| > PURGE_ABOVE
                 && AtBoundary(Held(hits, c, trimmed, own, key), c.now - seconds)
  {
  }

  /** A call keeps a key good; `kept` says whether strictly so. */
  lemma {:induction false} CallKeepsKey(w: World, c: Call, key: string, limit: string -> nat, seconds: real,
                                        clock: real, strict: bool)
    returns (w': World, kept: bool)
    requires seconds >= 0.0 && clock <= c.now && KeyOk(w, key, limit(key), seconds, clock, strict)
    ensures w' == Exec(w, c, limit, seconds)
    ensures kept <==> strict && !DropsBoundary(w.hits, c, limit(c.key), seconds, key)
    ensures KeyOk(w', key, limit(key), seconds, c.now, kept)
  {
    var held, purges;
    w', held, purges := CallQueues(w, c, key, limit, seconds, clock, strict);
    kept := strict && !(purges && AtBoundary(held, c.now - seconds));
    KeptOk(w', key, held, purges, limit(key), seconds, c.now, strict, kept);
  }

  lemma {:induction false} KeptOk(w: World, key: string, held: seq<real>, purges: bool, limit: nat, seconds: real,
                                  clock: real, strict: bool, kept: bool)
    requires TimesOk(QueueOf(w.accepted, key), limit, seconds, clock, strict)
    requires QueueOk(held, QueueOf(w.accepted, key), clock - seconds, strict)
    requires QueueOf(w.hits, key) == if purges && !Live(held, clock - seconds) then [] else held
    requires kept <==> strict && !(purges && AtBoundary(held, clock - seconds))
    ensures KeyOk(w, key, limit, seconds, clock, kept)
  {
    StoredOk(QueueOf(w.hits, key), held, QueueOf(w.accepted, key), limit, seconds, clock, purges, strict, kept);
  }

  lemma {:induction false} Weaker(accepted: seq<real>, queue: seq<real>, limit: nat, seconds: real, horizon: real,
                                  strict: bool)
    requires Spaced(accepted, limit, seconds, strict) && QueueOk(queue, accepted, horizon, strict)
    ensures Spaced(accepted, limit, seconds, false) && QueueOk(queue, accepted, horizon, false)
  {
  }

  /** The table keeps the queue, or a purge has dropped it after its last hit left the half-open window. */
  lemma {:induction false} StoredOk(stored: seq<real>, held: seq<real>, accepted: seq<real>, limit: nat, seconds: real,
                                    clock: real, purges: bool, before: bool, after: bool)
    requires TimesOk(accepted, limit, seconds, clock, before) && QueueOk(held, accepted, clock - seconds, before)
    requires stored == if purges && !Live(held, clock - seconds) then [] else held
    requires after <==> before && !(purges && AtBoundary(held, clock - seconds))
    ensures TimesOk(accepted, limit, seconds, clock, after) && QueueOk(stored, accepted, clock - seconds, after)
  {
    if before {
      Weaker(accepted, held, limit, seconds, clock - seconds, before);
    }
    if stored != held {
      DroppedOk(held, accepted, clock - seconds, after);
    }
  }

  lemma {:induction false} RunKeepsKey(calls: seq<Call>, key: string, limit: string -> nat, seconds: real, clock: real)
    requires seconds >= 0.0 && Monotonic(calls) && (calls != [] ==> calls[|calls| - 1].now <= clock)
    ensures KeyOk(After(calls, limit, seconds), key, limit(key), seconds, clock, !EverDropped(calls, limit, seconds, key))
  {
    if calls != [] {
      var front, last := calls[..|calls| - 1], calls[|calls| - 1];
      RunKeepsKey(front, key, limit, seconds, last.now);
      var strict := !EverDropped(front, limit, seconds, key);
      var w, kept := CallKeepsKey(After(front, limit, seconds), last, key, limit, seconds, last.now, strict);
      LaterClock(w, key, limit(key), seconds, last.now, clock, kept);
    }
  }

  // ---------------------------------------------------------------- main results

  /** How many of the times fall in the interval from `t` to `u`, the start counted or not. */
  function CountIn(times: seq<real>, t: real, u: real, closed: bool): nat
  {
    if times == [] then 0
    else
      var last := times[|times| - 1];
      CountIn(times[..|times| - 1], t, u, closed) + if (t < last || (closed && t == last)) && last <= u then 1 else 0
  }

  lemma {:induction false} CountInTail(times: seq<real>, k: nat, t: real, u: real, closed: bool)
    requires k <= |times|
    requires forall i :: 0 <= i < k ==> if closed then times[i] < t else times[i] <= t
    ensures CountIn(times, t, u, closed) <= |times| - k
  {
    if times != [] {
      CountInTail(times[..|times| - 1], if k == |times| then k - 1 else k, t, u, closed);
    }
  }

  lemma {:induction false} SpacedCount(times: seq<real>, limit: nat, seconds: real, t: real, closed: bool)
    requires seconds >= 0.0 && Ascending(times) && Spaced(times, limit, seconds, closed) && (limit == 0 ==> times == [])
    ensures CountIn(times, t, t + seconds, closed) <= limit
  {
    if times != [] {
      var n := |times| - 1;
      if times[n] <= t + seconds && n >= limit {
        assert Spaced(times, limit, seconds, closed);
        assert (n - limit) + limit == n;
        assert if closed then times[n - limit] + seconds < times[n] else times[n - limit] + seconds <= times[n];
        CountInTail(times, n - limit + 1, t, t + seconds, closed);
      } else if times[n] <= t + seconds {
        CountInTail(times, 0, t, t + seconds, closed);
      } else {
        assert Spaced(times[..n], limit, seconds, closed);
        SpacedCount(times[..n], limit, seconds, t, closed);
      }
    }
  }

  lemma {:induction false} NothingAtLimitZero(calls: seq<Call>, key: string, limit: string -> nat, seconds: real)
    requires limit(key) == 0
    ensures QueueOf(After(calls, limit, seconds).accepted, key) == []
  {
    if calls != [] {
      NothingAtLimitZero(calls[..|calls| - 1], key, limit, seconds);
    }
  }

  /** A true sliding window: in every run and for every key, each half-open interval of the window's length holds at most
      `limit` accepted calls, purges included; and each closed one too, unless a purge has dropped the key at the boundary. */
  lemma {:induction false} SlidingWindow(calls: seq<Call>, key: string, limit: string -> nat, seconds: real, t: real)
    requires seconds >= 0.0 && Monotonic(calls)
    ensures var w := After(calls, limit, seconds);
            && CountIn(QueueOf(w.accepted, key), t, t + seconds, false) <= limit(key)
            && (!EverDropped(calls, limit, seconds, key) ==>
                  CountIn(QueueOf(w.accepted, key), t, t + seconds, true) <= limit(key))
  {
    var clock := if calls == [] then 0.0 else calls[|calls| - 1].now;
    RunKeepsKey(calls, key, limit, seconds, clock);
    if limit(key) == 0 {
      NothingAtLimitZero(calls, key, limit, seconds);
    }
    WindowBound(After(calls, limit, seconds), key, limit(key), seconds, t, clock, !EverDropped(calls, limit, seconds, key));
  }

  lemma {:induction false} WindowBound(w: World, key: string, limit: nat, seconds: real, t: real, clock: real,
                                       strict: bool)
    requires seconds >= 0.0 && KeyOk(w, key, limit, seconds, clock, strict)
    requires limit == 0 ==> QueueOf(w.accepted, key) == []
    ensures CountIn(QueueOf(w.accepted, key), t, t + seconds, false) <= limit
    ensures strict ==> CountIn(QueueOf(w.accepted, key), t, t + seconds, true) <= limit
  {
    Weaker(QueueOf(w.accepted, key), QueueOf(w.hits, key), limit, seconds, clock - seconds, strict);
    SpacedCount(QueueOf(w.accepted, key), limit, seconds, t, false);
    if strict {
      SpacedCount(QueueOf(w.accepted, key), limit, seconds, t, true);
    }
  }

  lemma {:induction false} CountAll(times: seq<real>, k: nat, t: real, u: real)
    requires k <= |times| && forall i :: k <= i < |times| ==> t <= times[i] <= u
    ensures CountIn(times, t, u, true) >= |times| - k
  {
    if k < |times| {
      CountAll(times[..|times| - 1], k, t, u);
    }
  }

  lemma {:induction false} MonotonicFront(calls: seq<Call>, c: Call)
    requires Monotonic(calls + [c])
    ensures Monotonic(calls) && forall i :: 0 <= i < |calls| ==> calls[i].now <= c.now
  {
    assert forall i :: 0 <= i < |calls| ==> (calls + [c])[i] == calls[i];
    assert (calls + [c])[|calls|] == c;
  }

  /** No call is refused without cause: a refused call finds `limit` accepted calls in the closed window before it. */
  lemma {:induction false} RefusalJustified(calls: seq<Call>, c: Call, limit: string -> nat, seconds: real)
    requires seconds >= 0.0 && Monotonic(calls + [c])
    requires !Accepts(After(calls, limit, seconds).hits, c.key, limit(c.key), seconds, c.now)
    ensures CountIn(QueueOf(After(calls, limit, seconds).accepted, c.key), c.now - seconds, c.now, true) >= limit(c.key)
  {
    MonotonicFront(calls, c);
    RunKeepsKey(calls, c.key, limit, seconds, c.now);
    var w := After(calls, limit, seconds);
    TrimMeaning(QueueOf(w.hits, c.key), c.now - seconds);
    RefusalBound(w, c, Trim(QueueOf(w.hits, c.key), c.now - seconds), limit(c.key), seconds,
                 !EverDropped(calls, limit, seconds, c.key));
  }

  lemma {:induction false} RefusalBound(w: World, c: Call, trimmed: seq<real>, limit: nat, seconds: real, strict: bool)
    requires seconds >= 0.0 && KeyOk(w, c.key, limit, seconds, c.now, strict)
    requires IsTrimmed(trimmed, QueueOf(w.hits, c.key), c.now - seconds) && |trimmed| >= limit
    ensures CountIn(QueueOf(w.accepted, c.key), c.now - seconds, c.now, true) >= limit
  {
    TrimmedKey(w, c.key, trimmed, limit, seconds, c.now, c.now, strict);
    QueueInWindow(trimmed, QueueOf(w.accepted, c.key), c.now - seconds, c.now, strict);
  }

  /** Every hit left in a trimmed queue is an accepted call of the closed window. */
  lemma {:induction false} QueueInWindow(trimmed: seq<real>, accepted: seq<real>, horizon: real, now: real,
                                         strict: bool)
    requires QueueOk(trimmed, accepted, horizon, strict) && Ascending(accepted) && (trimmed != [] ==> trimmed[0] >= horizon)
    requires forall i :: 0 <= i < |accepted| ==> accepted[i] <= now
    ensures CountIn(accepted, horizon, now, true) >= |trimmed|
  {
    var k := |accepted| - |trimmed|;
    if trimmed != [] {
      assert accepted[k] == trimmed[0];
    }
    CountAll(accepted, k, horizon, now);
  }

  // ---------------------------------------------------------------- the purge boundary

  /** One call keeps the account of the closed window, what the queue no longer holds being older than it, exactly if it
      does not drop the key at the boundary. */
  lemma {:induction false} ClosedQueueIff(w: World, c: Call, key: string, limit: string -> nat, seconds: real,
                                          clock: real)
    returns (w': World)
    requires seconds >= 0.0 && clock <= c.now && KeyOk(w, key, limit(key), seconds, clock, true)
    ensures w' == Exec(w, c, limit, seconds)
    ensures QueueOk(QueueOf(w'.hits, key), QueueOf(w'.accepted, key), c.now - seconds, true)
            <==> !DropsBoundary(w.hits, c, limit(c.key), seconds, key)
  {
    var kept;
    w', kept := CallKeepsKey(w, c, key, limit, seconds, clock, true);
    if DropsBoundary(w.hits, c, limit(c.key), seconds, key) {
      var dropped := DroppedQueue(w, c, key, limit, seconds, clock);
    }
  }

  lemma {:induction false} DroppedQueue(w: World, c: Call, key: string, limit: string -> nat, seconds: real,
                                        clock: real)
    returns (w': World)
    requires seconds >= 0.0 && clock <= c.now && KeyOk(w, key, limit(key), seconds, clock, true)
    requires DropsBoundary(w.hits, c, limit(c.key), seconds, key)
    ensures w' == Exec(w, c, limit, seconds)
    ensures !QueueOk(QueueOf(w'.hits, key), QueueOf(w'.accepted, key), c.now - seconds, true)
  {
    var held, purges;
    w', held, purges := CallQueues(w, c, key, limit, seconds, clock, true);
    LastHeld(held, QueueOf(w'.accepted, key), c.now - seconds, true);
    NotYetOlder(QueueOf(w'.accepted, key), c.now - seconds);
  }

  lemma {:induction false} NotYetOlder(accepted: seq<real>, horizon: real)
    requires AtBoundary(accepted, horizon)
    ensures !QueueOk([], accepted, horizon, true)
  {
    assert accepted[|accepted| - 1] >= horizon;
  }

  function Repeat(c: Call, n: nat): seq<Call>
  {
    if n == 0 then [] else Repeat(c, n - 1) + [c]
  }

  function Times(t: real, n: nat): (r: seq<real>)
    ensures |r| == n && forall i :: 0 <= i < n ==> r[i] == t
  {
    if n == 0 then [] else Times(t, n - 1) + [t]
  }

  lemma {:induction false} AfterStep(calls: seq<Call>, c: Call, limit: string -> nat, seconds: real)
    ensures After(calls + [c], limit, seconds) == Exec(After(calls, limit, seconds), c, limit, seconds)
  {
    assert (calls + [c])[..|calls|] == calls;
  }

  lemma {:induction false} MonotonicRepeat(calls: seq<Call>, c: Call, n: nat)
    requires Monotonic(calls) && forall i :: 0 <= i < |calls| ==> calls[i].now <= c.now
    ensures Monotonic(calls + Repeat(c, n))
    ensures forall i :: 0 <= i < |calls + Repeat(c, n)| ==> (calls + Repeat(c, n))[i].now <= c.now
  {
    if n == 0 {
      assert calls + Repeat(c, n) == calls;
    } else {
      MonotonicRepeat(calls, c, n - 1);
      assert calls + Repeat(c, n) == calls + Repeat(c, n - 1) + [c];
    }
  }

  /** A call of a key whose queue holds nothing but hits of this instant, fewer than the limit. */
  lemma {:induction false} RecentCall(w: World, c: Call, n: nat, limit: string -> nat, seconds: real)
    returns (w': World)
    requires seconds > 0.0 && QueueOf(w.hits, c.key) == Times(c.now, n) && n < limit(c.key)
    ensures w' == Exec(w, c, limit, seconds)
    ensures QueueOf(w'.hits, c.key) == Times(c.now, n + 1)
    ensures QueueOf(w'.accepted, c.key) == QueueOf(w.accepted, c.key) + [c.now]
  {
    w' := Exec(w, c, limit, seconds);
    var trimmed := ExecQueues(w, c, limit, seconds, c.key);
    AllRecent(c.now, n, c.now - seconds);
    StoredQueue(w.hits, c, trimmed, limit(c.key), seconds, c.key);
  }

  lemma {:induction false} AllRecent(now: real, n: nat, horizon: real)
    requires horizon < now
    ensures Trim(Times(now, n), horizon) == Times(now, n)
  {
    TrimMeaning(Times(now, n), horizon);
    if n > 0 {
      assert Times(now, n)[0] == now;
    }
  }

  /** What a call does to any world. */
  ghost function Effect(c: Call, limit: string -> nat, seconds: real): World -> World
  {
    w => Exec(w, c, limit, seconds)
  }

  /** The world after a step is taken `n` times. */
  function Again(w: World, n: nat, next: World -> World): World
  {
    if n == 0 then w else next(Again(w, n - 1, next))
  }

  lemma {:induction false} AfterAgain(calls: seq<Call>, c: Call, n: nat, run: seq<Call>, limit: string -> nat,
                                      seconds: real)
    requires run == calls + Repeat(c, n)
    ensures After(run, limit, seconds) == Again(After(calls, limit, seconds), n, Effect(c, limit, seconds))
  {
    if n == 0 {
      assert run == calls;
    } else {
      var front := calls + Repeat(c, n - 1);
      AfterAgain(calls, c, n - 1, front, limit, seconds);
      assert run == front + [c];
      AfterStep(front, c, limit, seconds);
    }
  }

  /** A step that accepts a call as long as the key's queue holds nothing but fewer hits of this instant than the limit. */
  ghost predicate Refills(next: World -> World, c: Call, limit: nat)
  {
    forall w: World, n: nat :: n < limit && QueueOf(w.hits, c.key) == Times(c.now, n) ==>
      && QueueOf(next(w).hits, c.key) == Times(c.now, n + 1)
      && QueueOf(next(w).accepted, c.key) == QueueOf(w.accepted, c.key) + [c.now]
  }

  lemma {:induction false} CallRefills(c: Call, limit: string -> nat, seconds: real)
    requires seconds > 0.0
    ensures Refills(Effect(c, limit, seconds), c, limit(c.key))
  {
    forall w: World, n: nat | n < limit(c.key) && QueueOf(w.hits, c.key) == Times(c.now, n)
      ensures QueueOf(Effect(c, limit, seconds)(w).hits, c.key) == Times(c.now, n + 1)
      ensures QueueOf(Effect(c, limit, seconds)(w).accepted, c.key) == QueueOf(w.accepted, c.key) + [c.now]
    {
      var w' := RecentCall(w, c, n, limit, seconds);
    }
  }

  /** Dropped, the key has its whole limit again. */
  lemma {:induction false} FullLimitAgain(w: World, c: Call, n: nat, limit: nat, next: World -> World)
    requires QueueOf(w.hits, c.key) == [] && n <= limit && Refills(next, c, limit)
    ensures QueueOf(Again(w, n, next).hits, c.key) == Times(c.now, n)
    ensures QueueOf(Again(w, n, next).accepted, c.key) == QueueOf(w.accepted, c.key) + Times(c.now, n)
  {
    if n > 0 {
      FullLimitAgain(w, c, n - 1, limit, next);
      assert QueueOf(w.accepted, c.key) + Times(c.now, n - 1) + [c.now]
          == QueueOf(w.accepted, c.key) + (Times(c.now, n - 1) + [c.now]);
    }
  }

  /** Refilled after a drop at the boundary, the key has had its limit and one more in the closed window. */
  lemma {:induction false} Refilled(w: World, c: Call, limit: nat, next: World -> World, seconds: real)
    requires seconds > 0.0 && QueueOf(w.hits, c.key) == [] && AtBoundary(QueueOf(w.accepted, c.key), c.now - seconds)
    requires Refills(next, c, limit)
    ensures CountIn(QueueOf(Again(w, limit, next).accepted, c.key), c.now - seconds, c.now, true) > limit
  {
    FullLimitAgain(w, c, limit, limit, next);
    Overflow(QueueOf(w.accepted, c.key), limit, c.now - seconds, c.now);
  }

  lemma {:induction false} RefilledRun(w: World, c: Call, n: nat, w': World, limit: string -> nat, seconds: real)
    requires seconds > 0.0 && QueueOf(w.hits, c.key) == [] && AtBoundary(QueueOf(w.accepted, c.key), c.now - seconds)
    requires n == limit(c.key) && w' == Again(w, n, Effect(c, limit, seconds))
    ensures CountIn(QueueOf(w'.accepted, c.key), c.now - seconds, c.now, true) > n
  {
    CallRefills(c, limit, seconds);
    Refilled(w, c, n, Effect(c, limit, seconds), seconds);
  }

  lemma {:induction false} RefilledAfter(calls: seq<Call>, w: World, c: Call, run: seq<Call>, limit: string -> nat,
                                         seconds: real)
    requires w == After(calls, limit, seconds) && run == calls + Repeat(c, limit(c.key))
    requires seconds > 0.0 && QueueOf(w.hits, c.key) == [] && AtBoundary(QueueOf(w.accepted, c.key), c.now - seconds)
    ensures CountIn(QueueOf(After(run, limit, seconds).accepted, c.key), c.now - seconds, c.now, true) > limit(c.key)
  {
    AfterAgain(calls, c, limit(c.key), run, limit, seconds);
    RefilledRun(w, c, limit(c.key), After(run, limit, seconds), limit, seconds);
  }

  lemma {:induction false} DroppedRun(calls: seq<Call>, c: Call, key: string, limit: string -> nat, seconds: real)
    returns (w: World)
    requires seconds > 0.0 && Monotonic(calls + [c])
    requires DropsBoundary(After(calls, limit, seconds).hits, c, limit(c.key), seconds, key)
    ensures w == After(calls + [c], limit, seconds)
    ensures QueueOf(w.hits, key) == [] && AtBoundary(QueueOf(w.accepted, key), c.now - seconds)
  {
    RunBoundary(calls, c, key, limit, seconds);
    w := DropEmpties(After(calls, limit, seconds), c, key, limit, seconds);
    AfterStep(calls, c, limit, seconds);
  }

  lemma {:induction false} DropOverflows(calls: seq<Call>, c: Call, longer: seq<Call>, again: Call, run: seq<Call>,
                                         limit: string -> nat, seconds: real)
    requires longer == calls + [c] && run == longer + Repeat(again, limit(again.key)) && again.now == c.now
    requires seconds > 0.0 && Monotonic(longer)
    requires DropsBoundary(After(calls, limit, seconds).hits, c, limit(c.key), seconds, again.key)
    ensures CountIn(QueueOf(After(run, limit, seconds).accepted, again.key), c.now - seconds, c.now, true)
            > limit(again.key)
  {
    var w := DroppedRun(calls, c, again.key, limit, seconds);
    RefilledAfter(longer, w, again, run, limit, seconds);
  }

  /** After a drop at the boundary, `limit` more calls of the key at the same instant overflow the closed window. */
  lemma {:induction false} BoundaryDropBreaks(calls: seq<Call>, c: Call, key: string, limit: string -> nat,
                                              seconds: real)
    returns (run: seq<Call>)
    requires seconds > 0.0 && Monotonic(calls + [c])
    requires DropsBoundary(After(calls, limit, seconds).hits, c, limit(c.key), seconds, key)
    ensures run == calls + [c] + Repeat(Call(key, c.now), limit(key)) && Monotonic(run)
    ensures CountIn(QueueOf(After(run, limit, seconds).accepted, key), c.now - seconds, c.now, true) > limit(key)
  {
    var again, longer := Call(key, c.now), calls + [c];
    run := RefillMonotonic(calls, c, again, limit(key));
    DropOverflows(calls, c, longer, again, run, limit, seconds);
  }

  lemma {:induction false} RefillMonotonic(calls: seq<Call>, c: Call, d: Call, n: nat) returns (run: seq<Call>)
    requires Monotonic(calls + [c]) && d.now == c.now
    ensures run == calls + [c] + Repeat(d, n) && Monotonic(run)
  {
    run := calls + [c] + Repeat(d, n);
    MonotonicFront(calls, c);
    MonotonicRepeat(calls + [c], d, n);
  }

  /** The accepted calls of a key dropped at the boundary end exactly one window ago. */
  lemma {:induction false} RunBoundary(calls: seq<Call>, c: Call, key: string, limit: string -> nat, seconds: real)
    requires seconds > 0.0 && Monotonic(calls + [c])
    requires DropsBoundary(After(calls, limit, seconds).hits, c, limit(c.key), seconds, key)
    ensures key != c.key && AtBoundary(QueueOf(After(calls, limit, seconds).accepted, key), c.now - seconds)
  {
    QueueAtBoundary(After(calls, limit, seconds).hits, c, limit(c.key), seconds, key);
    MonotonicFront(calls, c);
    RunKeepsKey(calls, key, limit, seconds, c.now);
    KeyAtBoundary(After(calls, limit, seconds), key, limit(key), seconds, c.now, !EverDropped(calls, limit, seconds, key));
  }

  lemma {:induction false} QueueAtBoundary(hits: Hits, c: Call, limit: nat, seconds: real, key: string)
    requires seconds > 0.0 && DropsBoundary(hits, c, limit, seconds, key)
    ensures key != c.key && AtBoundary(QueueOf(hits, key), c.now - seconds)
  {
    OwnCallKeeps(hits, c, limit, seconds);
  }

  lemma {:induction false} KeyAtBoundary(w: World, key: string, limit: nat, seconds: real, clock: real, strict: bool)
    requires KeyOk(w, key, limit, seconds, clock, strict) && AtBoundary(QueueOf(w.hits, key), clock - seconds)
    ensures AtBoundary(QueueOf(w.accepted, key), clock - seconds)
  {
    LastHeld(QueueOf(w.hits, key), QueueOf(w.accepted, key), clock - seconds, strict);
  }

  lemma {:induction false} DropEmpties(w: World, c: Call, key: string, limit: string -> nat, seconds: real)
    returns (w': World)
    requires key != c.key && DropsBoundary(w.hits, c, limit(c.key), seconds, key)
    ensures w' == Exec(w, c, limit, seconds)
    ensures QueueOf(w'.hits, key) == [] && QueueOf(w'.accepted, key) == QueueOf(w.accepted, key)
  {
    w' := Exec(w, c, limit, seconds);
    var trimmed := ExecQueues(w, c, limit, seconds, key);
    StoredQueue(w.hits, c, trimmed, limit(c.key), seconds, key);
    BoundaryOfHeld(w.hits, c, trimmed, limit(c.key), seconds, key);
  }

  lemma {:induction false} LastHeld(held: seq<real>, accepted: seq<real>, horizon: real, strict: bool)
    requires QueueOk(held, accepted, horizon, strict) && AtBoundary(held, horizon)
    ensures AtBoundary(accepted, horizon)
  {
    assert accepted[|accepted| - 1] == held[|held| - 1];
  }

  lemma {:induction false} Overflow(accepted: seq<real>, limit: nat, horizon: real, now: real)
    requires AtBoundary(accepted, horizon) && horizon <= now
    ensures CountIn(accepted + Times(now, limit), horizon, now, true) > limit
  {
    CountAll(accepted + Times(now, limit), |accepted| - 1, horizon, now);
  }

  /** A key that is calling is never dropped by its own purge. */
  lemma {:induction false} OwnCallKeeps(hits: Hits, c: Call, limit: nat, seconds: real)
    requires seconds > 0.0
    ensures !DropsBoundary(hits, c, limit, seconds, c.key)
  {
  }

  lemma {:induction false} DroppedStep(calls: seq<Call>, c: Call, limit: string -> nat, seconds: real, key: string)
    ensures EverDropped(calls + [c], limit, seconds, key)
            <==> EverDropped(calls, limit, seconds, key)
                 || DropsBoundary(After(calls, limit, seconds).hits, c, limit(c.key), seconds, key)
  {
    assert (calls + [c])[..|calls|] == calls;
  }

  lemma {:induction false} OwnStep(calls: seq<Call>, c: Call, limit: string -> nat, seconds: real)
    requires seconds > 0.0
    ensures EverDropped(calls + [c], limit, seconds, c.key) <==> EverDropped(calls, limit, seconds, c.key)
  {
    DroppedStep(calls, c, limit, seconds, c.key);
    OwnCallKeeps(After(calls, limit, seconds).hits, c, limit(c.key), seconds);
  }

  lemma {:induction false} RepeatKeeps(calls: seq<Call>, c: Call, n: nat, run: seq<Call>, limit: string -> nat,
                                       seconds: real)
    requires seconds > 0.0 && !EverDropped(calls, limit, seconds, c.key) && run == calls + Repeat(c, n)
    ensures !EverDropped(run, limit, seconds, c.key)
  {
    if n == 0 {
      assert run == calls;
    } else {
      var front := calls + Repeat(c, n - 1);
      RepeatKeeps(calls, c, n - 1, front, limit, seconds);
      OwnStep(front, c, limit, seconds);
      assert run == front + [c];
    }
  }

  /** How many calls of the key the closed window from `t` holds after it calls `n` times more at one instant. */
  function CountAfter(calls: seq<Call>, key: string, now: real, n: nat, limit: string -> nat, seconds: real, t: real): nat
  {
    CountIn(QueueOf(After(calls + Repeat(Call(key, now), n), limit, seconds).accepted, key), t, t + seconds, true)
  }

  /** Exactly when the closed bound is lost: a call keeps every closed window of a key within the limit, whatever the key
      itself calls at that instant, if and only if it does not drop the key at the boundary. */
  lemma {:induction false} ClosedWindowIff(calls: seq<Call>, c: Call, key: string, limit: string -> nat, seconds: real)
    requires seconds > 0.0 && Monotonic(calls + [c]) && !EverDropped(calls, limit, seconds, key)
    ensures (forall n: nat, t :: CountAfter(calls + [c], key, c.now, n, limit, seconds, t) <= limit(key))
            <==> !DropsBoundary(After(calls, limit, seconds).hits, c, limit(c.key), seconds, key)
  {
    if DropsBoundary(After(calls, limit, seconds).hits, c, limit(c.key), seconds, key) {
      DroppedCount(calls, c, key, limit, seconds);
    } else {
      forall n: nat, t
        ensures CountAfter(calls + [c], key, c.now, n, limit, seconds, t) <= limit(key)
      {
        KeptCount(calls, c, key, n, limit, seconds, t);
      }
    }
  }

  lemma {:induction false} DroppedCount(calls: seq<Call>, c: Call, key: string, limit: string -> nat, seconds: real)
    requires seconds > 0.0 && Monotonic(calls + [c])
    requires DropsBoundary(After(calls, limit, seconds).hits, c, limit(c.key), seconds, key)
    ensures CountAfter(calls + [c], key, c.now, limit(key), limit, seconds, c.now - seconds) > limit(key)
  {
    var run := BoundaryDropBreaks(calls, c, key, limit, seconds);
    assert c.now - seconds + seconds == c.now;
  }

  lemma {:induction false} KeptCount(calls: seq<Call>, c: Call, key: string, n: nat, limit: string -> nat,
                                     seconds: real, t: real)
    requires seconds > 0.0 && Monotonic(calls + [c]) && !EverDropped(calls, limit, seconds, key)
    requires !DropsBoundary(After(calls, limit, seconds).hits, c, limit(c.key), seconds, key)
    ensures CountAfter(calls + [c], key, c.now, n, limit, seconds, t) <= limit(key)
  {
    MonotonicFront(calls, c);
    DroppedStep(calls, c, limit, seconds, key);
    var run := calls + [c] + Repeat(Call(key, c.now), n);
    RepeatKeeps(calls + [c], Call(key, c.now), n, run, limit, seconds);
    MonotonicRepeat(calls + [c], Call(key, c.now), n);
    SlidingWindow(run, key, limit, seconds, t);
  }

  // ---------------------------------------------------------------- a run that loses it

  function Name(n: nat): string
  {
    seq(n + 1, _ => 'x')
  }

  /** One call of the key "" at time 0, then `n` calls of other keys at time 60. */
  function Crowd(n: nat): seq<Call>
  {
    if n == 0 then [Call("", 0.0)] else Crowd(n - 1) + [Call(Name(n - 1), 60.0)]
  }

  lemma {:induction false} CrowdMonotonic(n: nat)
    ensures Monotonic(Crowd(n)) && forall i :: 0 <= i < |Crowd(n)| ==> Crowd(n)[i].now <= 60.0
  {
    if n > 0 {
      CrowdMonotonic(n - 1);
    }
  }

  ghost predicate CrowdOk(w: World, n: nat)
  {
    && |w.hits.Keys| == n + 1
    && (forall key :: key in w.hits ==> |key| <= n)
    && QueueOf(w.hits, "") == [0.0]
  }

  /** A call of a key without a queue, while there is room in the table. */
  lemma {:induction false} FreshCall(w: World, c: Call, limit: string -> nat) returns (w': World)
    requires limit(c.key) >= 1 && c.key !in w.hits && |w.hits.Keys| < PURGE_ABOVE
    ensures w' == Exec(w, c, limit, 60.0) && w'.hits == w.hits[c.key := [c.now]]
  {
    w' := Exec(w, c, limit, 60.0);
    var trimmed := ExecQueues(w, c, limit, 60.0, c.key);
    assert trimmed == [];
    FreshStored(w.hits, c, trimmed, limit(c.key));
  }

  lemma {:induction false} FreshStored(hits: Hits, c: Call, queue: seq<real>, limit: nat)
    requires limit >= 1 && c.key !in hits && |hits.Keys| < PURGE_ABOVE && queue == []
    ensures Stored(hits, c.key, queue, limit, 60.0, c.now) == hits[c.key := [c.now]]
  {
    assert queue + [c.now] == [c.now];
    assert hits[c.key := [c.now]].Keys == hits.Keys + {c.key};
  }

  lemma {:induction false} CrowdStarts(limit: string -> nat) returns (w: World)
    requires limit("") >= 1
    ensures w == After(Crowd(0), limit, 60.0) && CrowdOk(w, 0)
  {
    var c := Call("", 0.0);
    w := FreshCall(Initial, c, limit);
    assert Initial.hits["" := [0.0]].Keys == {""};
    assert Crowd(0)[..0] == [];
  }

  lemma {:induction false} CrowdState(n: nat, limit: string -> nat)
    requires n < PURGE_ABOVE && forall key :: limit(key) >= 1
    ensures CrowdOk(After(Crowd(n), limit, 60.0), n)
  {
    if n == 0 {
      var w := CrowdStarts(limit);
    } else {
      CrowdState(n - 1, limit);
      CrowdGrows(After(Crowd(n - 1), limit, 60.0), n - 1, limit);
      CrowdStep(n - 1, limit);
    }
  }

  lemma {:induction false} CrowdStep(n: nat, limit: string -> nat)
    ensures After(Crowd(n + 1), limit, 60.0) == Exec(After(Crowd(n), limit, 60.0), Call(Name(n), 60.0), limit, 60.0)
  {
    AfterStep(Crowd(n), Call(Name(n), 60.0), limit, 60.0);
  }

  lemma {:induction false} CrowdGrows(w: World, n: nat, limit: string -> nat)
    requires n + 1 < PURGE_ABOVE && limit(Name(n)) >= 1 && CrowdOk(w, n)
    ensures CrowdOk(Exec(w, Call(Name(n), 60.0), limit, 60.0), n + 1)
  {
    assert |Name(n)| == n + 1;
    var w' := FreshCall(w, Call(Name(n), 60.0), limit);
    assert w.hits[Name(n) := [60.0]].Keys == w.hits.Keys + {Name(n)};
  }

  /** One key too many: the purge finds the hit of the key "" exactly one window old. */
  lemma {:induction false} LastOfCrowd(w: World, n: nat, limit: nat)
    requires n + 1 == PURGE_ABOVE && limit >= 1 && CrowdOk(w, n)
    ensures DropsBoundary(w.hits, Call(Name(n), 60.0), limit, 60.0, "")
  {
    assert |Name(n)| == n + 1;
    var queue := QueueOf(w.hits, Name(n));
    assert Trim(queue, 60.0 - 60.0) == [];
    assert w.hits[Name(n) := [60.0]].Keys == w.hits.Keys + {Name(n)};
  }

  /** Whatever limits, at least one, the callers pass: a run with a window of 60 seconds in which 10000 other keys at time
      60 let the key "" in once at time 0 and `limit` times at time 60. */
  lemma {:induction false} PurgeOpensClosedWindow(limit: string -> nat) returns (calls: seq<Call>)
    requires forall key :: limit(key) >= 1
    ensures Monotonic(calls)
    ensures CountIn(QueueOf(After(calls, limit, 60.0).accepted, ""), 0.0, 60.0, true) > limit("")
  {
    var n: nat :| n + 1 == PURGE_ABOVE;
    var w := After(Crowd(n), limit, 60.0);
    CrowdState(n, limit);
    LastOfCrowd(w, n, limit(Name(n)));
    calls := CrowdBreaks(n, w, limit);
  }

  lemma {:induction false} CrowdBreaks(n: nat, w: World, limit: string -> nat) returns (calls: seq<Call>)
    requires w == After(Crowd(n), limit, 60.0)
    requires DropsBoundary(w.hits, Call(Name(n), 60.0), limit(Name(n)), 60.0, "")
    ensures Monotonic(calls)
    ensures CountIn(QueueOf(After(calls, limit, 60.0).accepted, ""), 0.0, 60.0, true) > limit("")
  {
    var c := Call(Name(n), 60.0);
    CrowdMonotonic(n + 1);
    assert Crowd(n + 1) == Crowd(n) + [c];
    calls := BoundaryDropBreaks(Crowd(n), c, "", limit, 60.0);
  }
}
