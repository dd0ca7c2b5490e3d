/**
 The Mojang route pool of core/internal/mojang/routes.go: weighted round robin with cooldowns.
 Times are nanoseconds since Go's zero time; a transport is a function of the call number and the
 route it is given, so that its answers may depend on everything that happened before.
 */
module RoutePool {
  import opened Wrappers

  const ZERO_TIME := 0
  const DEFAULT_COOLDOWN := 30_000_000_000
  const MAX_EVENTS := 100

  datatype RouteState = Unset | Healthy | CoolingDown | Failing | Disabled

  datatype Route = Route(id: string, kind: string, url: string, weight: int, disabled: bool, state: RouteState,
                         cooldownUntil: int, requestCount: int, failureCount: int, rateLimitCount: int,
                         lastFailureError: string)

  /** A transport error: its text, whether it is `ErrRateLimited`, and its `RateLimitError` delay if it is one. */
  datatype Failure = Failure(text: string, rateLimited: bool, retryAfter: Option<int>)

  datatype Event = Event(id: nat, proxyID: string, eventType: string, retryAfter: int, error: string, createdAt: int)

  type Transport = (nat, Route) -> Option<Failure>

  datatype PoolState = PoolState(routes: seq<Route>, cursor: nat, nextEventID: nat, events: seq<Event>)

  predicate Usable(r: Route, now: int) {
    !r.disabled && !(r.cooldownUntil > now)
  }

  predicate HasUsable(routes: seq<Route>, now: int) {
    exists i :: 0 <= i < |routes| && Usable(routes[i], now)
  }

  /** int64 wrap-around. */
  function Wrap64(x: int): int {
    (x + 0x8000_0000_0000_0000) % 0x1_0000_0000_0000_0000 - 0x8000_0000_0000_0000
  }

  // ------------------------------------------------------------------ execution order

  function EffectiveWeight(r: Route): nat {
    if r.weight <= 0 then 1 else r.weight
  }

  function Repeat(i: nat, n: nat): seq<nat> {
    seq(n, _ => i)
  }

  /** Every route index from `from` on, as often as its weight says. */
  function WeightedFrom(routes: seq<Route>, from: nat): seq<nat>
    requires from <= |routes|
    decreases |routes| - from
  {
    if from == |routes| then [] else Repeat(from, EffectiveWeight(routes[from])) + WeightedFrom(routes, from + 1)
  }

  function Weighted(routes: seq<Route>): seq<nat> {
    WeightedFrom(routes, 0)
  }

  /** The remainder `x % n`, by subtraction. */
  function Wrap(x: nat, n: nat): (r: nat)
    requires n > 0
    ensures r < n
  {
    if x < n then x else Wrap(x - n, n)
  }

  lemma {:induction false} WrapIsRemainder(x: nat, n: nat)
    requires n > 0
    ensures Wrap(x, n) == x % n
  {
    if x >= n {
      WrapIsRemainder(x - n, n);
      RemainderRepeats(x, n);
    }
  }

  lemma RemainderRepeats(x: nat, n: nat)
    requires 0 < n <= x
    ensures x % n == (x - n) % n
  {
    var d := (x - n) / n + 1 - x / n;
    assert d * n == x % n - (x - n) % n;
    MultipleIsLarge(d, n);
  }

  lemma MultipleIsLarge(d: int, n: nat)
    ensures d >= 1 ==> d * n >= n
    ensures d <= -1 ==> d * n + n <= 0
  {
  }

  function Rotate(s: seq<nat>, by': nat): seq<nat>
    requires by' <= |s|
  {
    s[by'..] + s[..by']
  }

  /** The order and the next cursor for a weighted list. */
  function OrderOf(w: seq<nat>, cursor: nat): seq<nat> {
    if |w| == 0 then [] else Rotate(w, Wrap(cursor, |w|))
  }

  function NextOf(w: seq<nat>, cursor: nat): nat {
    if |w| == 0 then cursor else Wrap(cursor + 1, |w|)
  }

  function ExecutionOrder(routes: seq<Route>, cursor: nat): seq<nat> {
    OrderOf(Weighted(routes), cursor)
  }

  function NextCursor(routes: seq<Route>, cursor: nat): nat {
    NextOf(Weighted(routes), cursor)
  }

  // ------------------------------------------------------------------ one execution

  function HasFallback(routes: seq<Route>, failed: nat, now: int): bool {
    exists i :: 0 <= i < |routes| && i != failed && Usable(routes[i], now)
  }

  /** `clock` is the pool's clock when the event is recorded; it dates an event without a time. */
  function RecordEvent(st: PoolState, index: int, event: Event, clock: int): PoolState {
    if index < 0 || index >= |st.routes| then st
    else
      var id := st.nextEventID + 1;
      var dated := event.(id := id, proxyID := st.routes[index].id,
                          createdAt := if event.createdAt == ZERO_TIME then clock else event.createdAt);
      var events := [dated] + st.events;
      st.(nextEventID := id, events := if |events| > MAX_EVENTS then events[..MAX_EVENTS] else events)
  }

  /** The cooldown before a `RateLimitError` raises it. */
  function BaseCooldown(configured: int, f: Failure): int {
    var cooldown := if configured == 0 then DEFAULT_COOLDOWN else configured;
    if f.rateLimited then Wrap64(cooldown * 2) else cooldown
  }

  predicate RaisesCooldown(configured: int, f: Failure) {
    f.retryAfter.Some? && f.retryAfter.value > BaseCooldown(configured, f)
  }

  function CooldownOf(configured: int, f: Failure): int {
    if RaisesCooldown(configured, f) then f.retryAfter.value else BaseCooldown(configured, f)
  }

  function FailedRoute(r: Route, f: Failure, now: int, cool: bool, configured: int): Route {
    r.(failureCount := r.failureCount + 1,
       lastFailureError := f.text,
       rateLimitCount := if f.rateLimited then r.rateLimitCount + 1 else r.rateLimitCount,
       state := if cool then CoolingDown else Failing,
       cooldownUntil := if cool then now + CooldownOf(configured, f) else ZERO_TIME)
  }

  function FailureEvent(f: Failure, now: int, configured: int): Event {
    Event(0, "", if f.rateLimited then "rate_limited" else "network_error",
          if RaisesCooldown(configured, f) then f.retryAfter.value else 0, f.text, now)
  }

  function MarkFailure(st: PoolState, i: nat, f: Failure, now: int, cool: bool, configured: int): PoolState
    requires i < |st.routes|
  {
    RecordEvent(st.(routes := st.routes[i := FailedRoute(st.routes[i], f, now, cool, configured)]), i,
                FailureEvent(f, now, configured), now)
  }

  function MarkSuccess(st: PoolState, i: nat, now: int): PoolState
    requires i < |st.routes|
  {
    var r := st.routes[i];
    var st1 := if r.state != Unset && r.state != Healthy then RecordEvent(st, i, Event(0, "", "recovered", 0, "", now), now) else st;
    st1.(routes := st1.routes[i := r.(state := Healthy, failureCount := 0, lastFailureError := "")])
  }

  function CountRequest(st: PoolState, i: nat): PoolState
    requires i < |st.routes|
  {
    st.(routes := st.routes[i := st.routes[i].(requestCount := st.routes[i].requestCount + 1)])
  }

  /** What the loop of `Execute` leaves: the pool, the route that answered, the routes contacted, the last error. */
  datatype Attempts = Attempts(st: PoolState, answered: Option<nat>, calls: seq<nat>, lastError: Option<Failure>)

  predicate InRange(order: seq<nat>, n: nat) {
    forall k :: 0 <= k < |order| ==> order[k] < n
  }

  function Attempt(st: PoolState, order: seq<nat>, tried: set<nat>, now: int, configured: int, transport: Transport,
                   calls: seq<nat>, lastError: Option<Failure>): (run: Attempts)
    requires InRange(order, |st.routes|)
    ensures |run.st.routes| == |st.routes|
    ensures run.answered.Some? ==> run.answered.value < |st.routes|
    decreases |order|
  {
    if order == [] then Attempts(st, None, calls, lastError)
    else
      var i, rest := order[0], order[1..];
      var route := st.routes[i];
      if i in tried then Attempt(st, rest, tried, now, configured, transport, calls, lastError)
      else if route.disabled then
        Attempt(st.(routes := st.routes[i := route.(state := Disabled)]), rest, tried + {i}, now, configured, transport,
                calls, lastError)
      else if route.cooldownUntil > now then
        Attempt(st, rest, tried + {i}, now, configured, transport, calls, lastError)
      else
        var result := transport(|calls|, route);
        var next := Contacted(st, i, result, now, configured);
        if result.None? then Attempts(next, Some(i), calls + [i], lastError)
        else Attempt(next, rest, tried + {i}, now, configured, transport, calls + [i], result)
  }

  /** The pool after route `i` was contacted and gave this result. */
  function Contacted(st: PoolState, i: nat, result: Option<Failure>, now: int, configured: int): PoolState
    requires i < |st.routes|
  {
    var counted := CountRequest(st, i);
    match result
    case None => MarkSuccess(counted, i, now)
    case Some(f) => MarkFailure(counted, i, f, now, HasFallback(counted.routes, i, now), configured)
  }

  function ExecuteSpec(st: PoolState, now: int, configured: int, transport: Transport): (run: Attempts)
    ensures |run.st.routes| == |st.routes|
    ensures run.answered.Some? ==> run.answered.value < |st.routes|
  {
    OrderInRange(st.routes, st.cursor);
    Attempt(st.(cursor := NextCursor(st.routes, st.cursor)), ExecutionOrder(st.routes, st.cursor), {}, now, configured,
            transport, [], None)
  }

  // ------------------------------------------------------------------ the class

  /** `Execute`'s error: `ErrAllRoutesFailed` joined with the last error, or with `ErrRouteUnavailable`. */
  datatype ExecuteError = LastError(failure: Failure) | RouteUnavailable

  datatype Answer = Answered(route: Route) | AllRoutesFailed(cause: ExecuteError)

  lemma SomeWeight(routes: seq<Route>)
    requires routes != []
    ensures Weighted(routes) != []
  {
    assert Repeat(0, EffectiveWeight(routes[0])) != [];
  }

  lemma Regroup(a: seq<nat>, b: seq<nat>, c: seq<nat>)
    ensures a + (b + c) == a + b + c
  {
  }

  class Pool {
    var Routes: seq<Route>
    var FailureCooldown: int
    var cursor: nat
    var nextEventID: nat
    var events: seq<Event>

    constructor (routes: seq<Route>, failureCooldown: int)
      ensures State() == PoolState(routes, 0, 0, []) && FailureCooldown == failureCooldown
    {
      Routes, FailureCooldown, cursor, nextEventID, events := routes, failureCooldown, 0, 0, [];
    }

    function State(): PoolState
      reads this
    {
      PoolState(Routes, cursor, nextEventID, events)
    }

    /** The loops of `executionOrder`. */
    method weightedIndexes() returns (weighted: seq<nat>)
      ensures weighted == Weighted(Routes)
    {
      weighted := [];
      for i := 0 to |Routes|
        invariant Weighted(Routes) == weighted + WeightedFrom(Routes, i)
      {
        var weight := Routes[i].weight;
        if weight <= 0 {
          weight := 1;
        }
        ghost var before := weighted;
        for j := 0 to weight
          invariant weighted == before + Repeat(i, j)
        {
          weighted := weighted + [i];
        }
        Regroup(before, Repeat(i, weight), WeightedFrom(Routes, i + 1));
      }
    }

    method executionOrder() returns (order: seq<nat>)
      modifies this`cursor
      ensures order == ExecutionOrder(Routes, old(cursor)) && cursor == NextCursor(Routes, old(cursor))
    {
      if |Routes| == 0 {
        return [];
      }
      var weighted := weightedIndexes();
      SomeWeight(Routes);
      WrapIsRemainder(cursor, |weighted|);
      WrapIsRemainder(cursor + 1, |weighted|);
      var start := cursor % |weighted|;
      cursor := (cursor + 1) % |weighted|;
      order := weighted[start..] + weighted[..start];
    }

    method hasFallbackRoute(failedIndex: nat, now: int) returns (found: bool)
      ensures found == HasFallback(Routes, failedIndex, now)
    {
      for i := 0 to |Routes|
        invariant forall k :: 0 <= k < i && k != failedIndex ==> !Usable(Routes[k], now)
      {
        if i == failedIndex || Routes[i].disabled || Routes[i].cooldownUntil > now {
          continue;
        }
        return true;
      }
      return false;
    }

    method recordEvent(index: int, event: Event, clock: int)
      modifies this`nextEventID, this`events
      ensures State() == RecordEvent(old(State()), index, event, clock)
    {
      if index < 0 || index >= |Routes| {
        return;
      }
      nextEventID := nextEventID + 1;
      var dated := event.(id := nextEventID, proxyID := Routes[index].id);
      if dated.createdAt == ZERO_TIME {
        dated := dated.(createdAt := clock);
      }
      events := [dated] + events;
      if |events| > MAX_EVENTS {
        events := events[..MAX_EVENTS];
      }
    }

    method markFailure(index: nat, err: Failure, now: int, cool: bool)
      requires index < |Routes|
      modifies this`Routes, this`nextEventID, this`events
      ensures State() == MarkFailure(old(State()), index, err, now, cool, FailureCooldown)
    {
      var route := Routes[index];
      route := route.(failureCount := route.failureCount + 1, lastFailureError := err.text, state := Failing);
      var cooldown := FailureCooldown;
      if cooldown == 0 {
        cooldown := DEFAULT_COOLDOWN;
      }
      var event := Event(0, "", "network_error", 0, err.text, now);
      if err.rateLimited {
        route := route.(rateLimitCount := route.rateLimitCount + 1);
        cooldown := Wrap64(cooldown * 2);
        event := event.(eventType := "rate_limited");
      }
      if err.retryAfter.Some? && err.retryAfter.value > cooldown {
        cooldown := err.retryAfter.value;
        event := event.(retryAfter := cooldown);
      }
      if cool {
        route := route.(cooldownUntil := now + cooldown, state := CoolingDown);
      } else {
        route := route.(cooldownUntil := ZERO_TIME);
      }
      Routes := Routes[index := route];
      recordEvent(index, event, now);
    }

    /** The part of the loop of `Execute` that contacts one route and records what came of it. */
    method contact(i: nat, call: nat, now: int, transport: Transport) returns (result: Option<Failure>)
      requires i < |Routes|
      modifies this`Routes, this`nextEventID, this`events
      ensures result == transport(call, old(Routes)[i])
      ensures State() == Contacted(old(State()), i, result, now, FailureCooldown)
    {
      var route := Routes[i];
      Routes := Routes[i := route.(requestCount := route.requestCount + 1)];
      result := transport(call, route);
      if result.Some? {
        var fallback := hasFallbackRoute(i, now);
        markFailure(i, result.value, now, fallback);
        return;
      }
      if Routes[i].state != Unset && Routes[i].state != Healthy {
        recordEvent(i, Event(0, "", "recovered", 0, "", now), now);
      }
      Routes := Routes[i := Routes[i].(state := Healthy, failureCount := 0, lastFailureError := "")];
    }

    method Execute(now: int, transport: Transport) returns (answer: Answer, ghost calls: seq<nat>)
      modifies this`Routes, this`cursor, this`nextEventID, this`events
      ensures var run := ExecuteSpec(old(State()), now, FailureCooldown, transport);
              State() == run.st && calls == run.calls && answer == AnswerOf(run)
    {
      var lastErr: Option<Failure> := None;
      ghost var goal := ExecuteSpec(State(), now, FailureCooldown, transport);
      OrderInRange(Routes, cursor);
      var order := executionOrder();
      var tried: set<nat> := {};
      calls := [];
      var count := 0;
      assert order[0..] == order;
      for k := 0 to |order|
        invariant InRange(order, |Routes|)
        invariant count == |calls|
        invariant goal == Attempt(State(), order[k..], tried, now, FailureCooldown, transport, calls, lastErr)
      {
        var i := order[k];
        assert order[k..][0] == i && order[k..][1..] == order[k + 1..];
        if i in tried {
          continue;
        }
        tried := tried + {i};
        if Routes[i].disabled {
          Routes := Routes[i := Routes[i].(state := Disabled)];
          continue;
        }
        if Routes[i].cooldownUntil > now {
          continue;
        }
        var result := contact(i, count, now, transport);
        calls, count := calls + [i], count + 1;
        if result.None? {
          return Answered(Routes[i]), calls;
        }
        lastErr := result;
      }
      return AllRoutesFailed(if lastErr.Some? then LastError(lastErr.value) else RouteUnavailable), calls;
    }
  }

  function AnswerOf(run: Attempts): Answer
    requires run.answered.Some? ==> run.answered.value < |run.st.routes|
  {
    match run.answered
    case Some(i) => Answered(run.st.routes[i])
    case None => AllRoutesFailed(if run.lastError.Some? then LastError(run.lastError.value) else RouteUnavailable)
  }

  // ------------------------------------------------------------------ the order

  lemma {:induction false} WeightedInRange(routes: seq<Route>, from: nat)
    requires from <= |routes|
    ensures InRange(WeightedFrom(routes, from), |routes|)
    decreases |routes| - from
  {
    if from < |routes| {
      WeightedInRange(routes, from + 1);
    }
  }

  lemma OrderInRange(routes: seq<Route>, cursor: nat)
    ensures InRange(ExecutionOrder(routes, cursor), |routes|)
  {
    WeightedInRange(routes, 0);
  }
}
