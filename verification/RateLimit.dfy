/**
  The fixed-window rate limiter of internal/httpserver/ratelimit.go and the sweep of its table in
  internal/jobs/housekeeping.go.
 */
module RateLimit {
  import opened Common

  datatype Counter = Counter(count: nat, resetAt: int)

  type Store = map<string, Counter>

  /** The counter after one more request at time now: a window whose end has passed starts afresh. */
  function Hit(rows: Store, key: string, window: int, now: int): (c: Counter)
    ensures c.count >= 1
  {
    if key in rows && rows[key].resetAt >= now then Counter(rows[key].count + 1, rows[key].resetAt)
    else Counter(1, now + window)
  }

  function Swept(rows: Store, now: int): Store {
    map key | key in rows && rows[key].resetAt >= now - HOUR :: rows[key]
  }

  /** A request that reached the table, or a run of the sweep, each at its own reading of the clock. */
  datatype Event = Request(key: string, limit: nat, window: int, now: int) | Sweep(now: int)

  function After(rows: Store, e: Event): Store {
    match e
    case Request(key, _, window, now) => rows[key := Hit(rows, key, window, now)]
    case Sweep(now) => Swept(rows, now)
  }

  predicate Allows(rows: Store, e: Event)
    requires e.Request?
  {
    Hit(rows, e.key, e.window, e.now).count <= e.limit
  }

  // ----- the sweep is invisible -----

  /** What the requests of a run are answered, in order: let through or not, and when their window ends. */
  function Answers(rows: Store, events: seq<Event>): seq<(bool, int)>
    decreases events
  {
    if events == [] then []
    else (if events[0].Request? then [(Allows(rows, events[0]), Hit(rows, events[0].key, events[0].window, events[0].now).resetAt)] else [])
         + Answers(After(rows, events[0]), events[1..])
  }

  function WithoutSweeps(events: seq<Event>): seq<Event> {
    if events == [] then []
    else (if events[0].Request? then [events[0]] else []) + WithoutSweeps(events[1..])
  }

  /** No sweep's clock is more than an hour ahead of a later request's; a monotone clock meets this. */
  ghost predicate SweepsOnTime(events: seq<Event>) {
    forall i, j :: 0 <= i < j < |events| && events[i].Sweep? && events[j].Request? ==> events[i].now - HOUR <= events[j].now
  }

  /** swept lacks only rows whose window is over for every request still to come. */
  ghost predicate LacksOnlyStaleRows(swept: Store, rows: Store, events: seq<Event>) {
    && (forall k :: k in swept ==> k in rows && swept[k] == rows[k])
    && (forall k, j :: k in rows && k !in swept && 0 <= j < |events| && events[j].Request? ==> rows[k].resetAt < events[j].now)
  }

  lemma {:induction false} SweptStoreAnswersAlike(swept: Store, rows: Store, events: seq<Event>)
    requires SweepsOnTime(events) && LacksOnlyStaleRows(swept, rows, events)
    ensures Answers(swept, events) == Answers(rows, WithoutSweeps(events))
    decreases events
  {
    if events != [] {
      var e, rest := events[0], events[1..];
      assert SweepsOnTime(rest) by {
        forall i, j | 0 <= i < j < |rest| && rest[i].Sweep? && rest[j].Request? ensures rest[i].now - HOUR <= rest[j].now {
          assert rest[i] == events[i + 1] && rest[j] == events[j + 1];
        }
      }
      SweptStoreAnswersAlike(After(swept, e), if e.Request? then After(rows, e) else rows, rest);
      if e.Request? {
        var kept := WithoutSweeps(events);
        assert kept == [e] + WithoutSweeps(rest) && kept[0] == e && kept[1..] == WithoutSweeps(rest);
        assert Hit(swept, e.key, e.window, e.now) == Hit(rows, e.key, e.window, e.now);
        assert Answers(rows, kept)[1..] == Answers(After(rows, e), WithoutSweeps(rest));
      } else {
        assert WithoutSweeps(events) == WithoutSweeps(rest);
      }
    }
  }

  /** Running the sweep at any moments changes no decision of the run. */
  lemma SweepIsInvisible(rows: Store, events: seq<Event>)
    requires SweepsOnTime(events)
    ensures Answers(rows, events) == Answers(rows, WithoutSweeps(events))
  {
    SweptStoreAnswersAlike(rows, rows, events);
  }

  // ----- how many requests get through -----

  ghost predicate Monotone(events: seq<Event>) {
    forall i, j :: 0 <= i < j < |events| ==> events[i].now <= events[j].now
  }

  /** One route's requests under one key share a limit and a window. */
  ghost predicate OneRoute(events: seq<Event>, key: string, limit: nat, window: int) {
    forall i :: 0 <= i < |events| && events[i].Request? && events[i].key == key ==> events[i].limit == limit && events[i].window == window
  }

  predicate Counts(rows: Store, e: Event, key: string, from: int, to: int) {
    e.Request? && e.key == key && from <= e.now <= to && Allows(rows, e)
  }

  /** The requests under key let through at times from..to. */
  function Admitted(rows: Store, events: seq<Event>, key: string, from: int, to: int): nat
    decreases events
  {
    if events == [] then 0
    else (if Counts(rows, events[0], key, from, to) then 1 else 0) + Admitted(After(rows, events[0]), events[1..], key, from, to)
  }

  predicate CountsArePositive(rows: Store) {
    forall k :: k in rows ==> rows[k].count >= 1
  }

  /** What is left of a limit of which used has been used up. */
  function Left(limit: nat, used: nat): nat {
    if used < limit then limit - used else 0
  }

  lemma {:induction false} NoneAfterTheInterval(rows: Store, events: seq<Event>, key: string, from: int, to: int)
    requires forall i :: 0 <= i < |events| ==> to < events[i].now
    ensures Admitted(rows, events, key, from, to) == 0
    decreases events
  {
    if events != [] {
      assert to < events[0].now;
      NoneAfterTheInterval(After(rows, events[0]), events[1..], key, from, to);
    }
  }

  /** While key's window lasts to the end of the interval, only what is left of the limit gets through. */
  lemma {:induction false} OneWindow(rows: Store, events: seq<Event>, key: string, limit: nat, window: int, from: int, to: int)
    requires Monotone(events) && OneRoute(events, key, limit, window)
    requires key in rows && to <= rows[key].resetAt
    ensures Admitted(rows, events, key, from, to) <= Left(limit, rows[key].count)
    decreases events
  {
    if events != [] {
      var rows' := After(rows, events[0]);
      if to < events[0].now {
        NoneAfterTheInterval(rows', events[1..], key, from, to);
      } else {
        OneWindow(rows', events[1..], key, limit, window, from, to);
      }
    }
  }

  /** From the start of an interval no longer than a window: the rest of the running window, and one more. */
  lemma {:induction false} TwoWindows(rows: Store, events: seq<Event>, key: string, limit: nat, window: int, from: int, to: int)
    requires Monotone(events) && OneRoute(events, key, limit, window) && to <= from + window
    requires forall i :: 0 <= i < |events| ==> from <= events[i].now
    ensures Admitted(rows, events, key, from, to) <= limit + if key in rows then Left(limit, rows[key].count) else 0
    decreases events
  {
    if events != [] {
      var e, rows' := events[0], After(rows, events[0]);
      if e.Request? && e.key == key && !(key in rows && rows[key].resetAt >= e.now) {
        OneWindow(rows', events[1..], key, limit, window, from, to);
      } else {
        TwoWindows(rows', events[1..], key, limit, window, from, to);
      }
    }
  }

  /** With a monotone clock, any closed interval of one window's length lets fewer than twice the limit
      through for each key, sweeps included. */
  lemma {:induction false} AtMostTwiceTheLimit(rows: Store, events: seq<Event>, key: string, limit: nat, window: int, from: int, to: int)
    requires CountsArePositive(rows) && Monotone(events) && OneRoute(events, key, limit, window) && to <= from + window
    ensures Admitted(rows, events, key, from, to) <= if limit == 0 then 0 else 2 * limit - 1
    decreases events
  {
    if events != [] {
      if events[0].now < from {
        AtMostTwiceTheLimit(After(rows, events[0]), events[1..], key, limit, window, from, to);
      } else {
        forall i | 0 <= i < |events| ensures from <= events[i].now { }
        TwoWindows(rows, events, key, limit, window, from, to);
      }
    }
  }

  /** k requests under one key, all at the same time. */
  function Burst(key: string, limit: nat, window: int, now: int, k: nat): seq<Event> {
    if k == 0 then [] else [Request(key, limit, window, now)] + Burst(key, limit, window, now, k - 1)
  }

  lemma {:induction false} BurstIsUniform(key: string, limit: nat, window: int, now: int, k: nat)
    ensures |Burst(key, limit, window, now, k)| == k
    ensures forall i :: 0 <= i < k ==> Burst(key, limit, window, now, k)[i] == Request(key, limit, window, now)
  {
    if k > 0 {
      BurstIsUniform(key, limit, window, now, k - 1);
    }
  }

  /** A burst within a running window uses up the limit one by one, whatever follows it. */
  lemma {:induction false} BurstUsesTheLimit(rows: Store, rest: seq<Event>, key: string, limit: nat, window: int, now: int,
                                             k: nat, from: int, to: int)
    requires key in rows && rows[key].resetAt >= now && rows[key].count + k <= limit && from <= now <= to
    ensures Admitted(rows, Burst(key, limit, window, now, k) + rest, key, from, to)
         == k + Admitted(rows[key := Counter(rows[key].count + k, rows[key].resetAt)], rest, key, from, to)
  {
    var events := Burst(key, limit, window, now, k) + rest;
    if k == 0 {
      assert events == rest;
      assert rows[key := Counter(rows[key].count, rows[key].resetAt)] == rows;
    } else {
      assert events[0] == Request(key, limit, window, now);
      assert events[1..] == Burst(key, limit, window, now, k - 1) + rest;
      var rows' := After(rows, events[0]);
      BurstUsesTheLimit(rows', rest, key, limit, window, now, k - 1, from, to);
      assert rows'[key := Counter(rows'[key].count + (k - 1), rows'[key].resetAt)] == rows[key := Counter(rows[key].count + k, rows[key].resetAt)];
    }
  }

  /** The run that reaches the bound: one request, the rest of the limit as the window closes, and the
      whole limit again a moment later. */
  function Straddle(key: string, limit: nat, window: int): seq<Event>
    requires limit >= 1
  {
    [Request(key, limit, window, 0)]
    + (Burst(key, limit, window, window, limit - 1)
       + ([Request(key, limit, window, window + 1)] + Burst(key, limit, window, window + 1, limit - 1)))
  }

  lemma StraddleIsARun(key: string, limit: nat, window: int)
    requires limit >= 1 && window >= 1
    ensures Monotone(Straddle(key, limit, window)) && OneRoute(Straddle(key, limit, window), key, limit, window)
  {
    BurstIsUniform(key, limit, window, window + 1, limit - 1);
    BurstIsUniform(key, limit, window, window, limit - 1);
    var events := Straddle(key, limit, window);
    forall i | 0 <= i < |events|
      ensures events[i] == Request(key, limit, window, if i == 0 then 0 else if i < limit then window else window + 1)
    {
    }
  }

  lemma SecondHalfOfStraddle(key: string, limit: nat, window: int)
    requires limit >= 1 && window >= 1
    ensures Admitted(map[key := Counter(limit, window)],
                     [Request(key, limit, window, window + 1)] + Burst(key, limit, window, window + 1, limit - 1),
                     key, window, 2 * window) == limit
  {
    var rows := map[key := Counter(limit, window)];
    var again := Burst(key, limit, window, window + 1, limit - 1);
    var renewed := map[key := Counter(1, 2 * window + 1)];
    assert After(rows, Request(key, limit, window, window + 1)) == renewed;
    assert again + [] == again;
    BurstUsesTheLimit(renewed, [], key, limit, window, window + 1, limit - 1, window, 2 * window);
  }

  /** No smaller bound holds. */
  lemma BoundIsReached(key: string, limit: nat, window: int)
    requires limit >= 1 && window >= 1
    ensures Monotone(Straddle(key, limit, window)) && OneRoute(Straddle(key, limit, window), key, limit, window)
    ensures Admitted(map[], Straddle(key, limit, window), key, window, 2 * window) == 2 * limit - 1
  {
    StraddleIsARun(key, limit, window);
    SecondHalfOfStraddle(key, limit, window);
    var second := [Request(key, limit, window, window + 1)] + Burst(key, limit, window, window + 1, limit - 1);
    var rows := map[key := Counter(1, window)];
    assert After(map[], Request(key, limit, window, 0)) == rows;
    assert Straddle(key, limit, window)[1..] == Burst(key, limit, window, window, limit - 1) + second;
    BurstUsesTheLimit(rows, second, key, limit, window, window, limit - 1, window, 2 * window);
    assert rows[key := Counter(limit, window)] == map[key := Counter(limit, window)];
  }

  // ----- the limiter -----

  class Limiter {
    var rows: Store

    constructor ()
      ensures rows == map[]
    {
      rows := map[];
    }

    /** One request: id is empty when no identity can be derived; up tells whether the table can be reached;
        wall is the clock by which a refusal's waiting time, in whole seconds, is worked out. */
    method Allow(name: string, id: string, limit: nat, window: int, now: int, wall: int, up: bool)
      returns (allowed: bool, retryAfter: nat)
      modifies this
      ensures id == "" || !up ==> allowed && rows == old(rows)
      ensures id != "" && up ==>
        var e := Request(name + ":" + id, limit, window, now);
        allowed == Allows(old(rows), e) && rows == After(old(rows), e)
      ensures id != "" && up ==>
        var key := name + ":" + id;
        && key in rows && (allowed <==> rows[key].count <= limit)
        && (if key in old(rows) && now <= old(rows)[key].resetAt
            then rows[key] == Counter(old(rows)[key].count + 1, old(rows)[key].resetAt)
            else rows[key] == Counter(1, now + window))
        && rows == old(rows)[key := rows[key]]
      ensures !allowed ==>
        var c := rows[name + ":" + id];
        && retryAfter >= 1 && wall + retryAfter * SECOND >= c.resetAt
        && (retryAfter > 1 ==> wall + (retryAfter - 1) * SECOND < c.resetAt)
    {
      allowed, retryAfter := true, 0;
      if id == "" || !up { return; }
      var key := name + ":" + id;
      var c := Hit(rows, key, window, now);
      rows := rows[key := c];
      if c.count > limit {
        var seconds := (c.resetAt - wall + SECOND - 1) / SECOND;
        return false, if seconds < 1 then 1 else seconds;
      }
    }

    method RunSweep(now: int)
      modifies this
      ensures rows == After(old(rows), Sweep(now))
      ensures forall key :: key in rows <==> key in old(rows) && now - HOUR <= old(rows)[key].resetAt
      ensures forall key :: key in rows ==> rows[key] == old(rows)[key]
    {
      rows := Swept(rows, now);
    }
  }
}
