/**
 What a failure and an answer do to a route of core/internal/mojang/routes.go, and how long a failed route rests: over
 whole executions and whole runs, in terms of the configured cooldown and the errors alone.
 */
module RoutePoolCooldown {
  import opened Wrappers
  import opened RoutePool
  import opened RoutePoolRuns

  /**
   How long a failure keeps a route out: the configured cooldown or thirty seconds, twice that for a rate limit (in
   int64), and no less than the delay that the error asks for.
   */
  function Delay(configured: int, f: Failure): int {
    var once := if configured == 0 then 30 * 1_000_000_000 else configured;
    var base := if f.rateLimited then Wrap64(once + once) else once;
    match f.retryAfter
    case None => base
    case Some(asked) => if asked < base then base else asked
  }

  /** What one contact makes of a route. */
  predicate Settles(before: Route, after: Route, result: Option<Failure>, cools: bool, now: int, configured: int) {
    && SameIdentity(before, after) && after.requestCount == before.requestCount + 1
    && match result
       case None =>
         && after.state == Healthy && after.failureCount == 0 && after.lastFailureError == ""
         && after.cooldownUntil == before.cooldownUntil && after.rateLimitCount == before.rateLimitCount
       case Some(f) =>
         && after.failureCount == before.failureCount + 1 && after.lastFailureError == f.text
         && after.rateLimitCount == before.rateLimitCount + (if f.rateLimited then 1 else 0)
         && (cools ==> after.state == CoolingDown && after.cooldownUntil == now + Delay(configured, f))
         && (!cools ==> after.state == Failing && after.cooldownUntil == ZERO_TIME)
  }

  lemma ContactSettles(st: PoolState, i: nat, result: Option<Failure>, now: int, configured: int)
    requires i < |st.routes|
    ensures var after := Contacted(st, i, result, now, configured).routes;
            |after| == |st.routes| && Settles(st.routes[i], after[i], result, HasFallback(st.routes, i, now), now, configured)
    ensures forall k :: 0 <= k < |st.routes| && k != i ==> Contacted(st, i, result, now, configured).routes[k] == st.routes[k]
  {
    var counted := CountRequest(st, i);
    assert forall k :: 0 <= k < |st.routes| && k != i ==> counted.routes[k] == st.routes[k];
    assert HasFallback(counted.routes, i, now) <==> HasFallback(st.routes, i, now);
  }

  // ------------------------------------------------------------------ one execution

  /** Contact `m` failed with an error that keeps nobody out. */
  predicate FailsBriefly(entry: seq<Route>, calls: seq<nat>, m: nat, configured: int, transport: Transport)
    requires m < |calls| && InRange(calls, |entry|)
  {
    var result := transport(m, entry[calls[m]]);
    result.Some? && Delay(configured, result.value) <= 0
  }

  /** Some contact from `base` on and before `m` failed in that way. */
  predicate SomeBrief(entry: seq<Route>, calls: seq<nat>, base: nat, m: nat, configured: int, transport: Transport)
    requires m <= |calls| && InRange(calls, |entry|)
  {
    exists k :: base <= k < m && FailsBriefly(entry, calls, k, configured, transport)
  }

  /** Another route could have been contacted instead: a later candidate, or one that failed briefly before. */
  predicate HasOther(entry: seq<Route>, calls: seq<nat>, base: nat, candidates: nat, early: bool, m: nat, configured: int,
                     transport: Transport)
    requires m < |calls| && InRange(calls, |entry|)
  {
    m + 1 < base + candidates || early || SomeBrief(entry, calls, base, m, configured, transport)
  }

  /**
   Where the loop stands: what was not tried is as at entry and still in the order, what was tried is usable after a brief
   failure only.
   */
  ghost predicate Between(st: PoolState, order: seq<nat>, tried: set<nat>, now: int, entry: seq<Route>, early: bool) {
    && |entry| == |st.routes| && InRange(order, |entry|)
    && (forall j :: 0 <= j < |entry| && j !in tried ==> st.routes[j] == entry[j] && j in order)
    && (early <==> exists j :: 0 <= j < |entry| && j in tried && Usable(st.routes[j], now))
  }

  lemma FallbackIff(st: PoolState, order: seq<nat>, tried: set<nat>, now: int, entry: seq<Route>, early: bool)
    requires Between(st, order, tried, now, entry, early) && order != [] && order[0] !in tried && Usable(entry[order[0]], now)
    ensures HasFallback(st.routes, order[0], now) <==> early || Candidates(entry, order[1..], tried + {order[0]}, now) != []
  {
    var i, rest := order[0], Candidates(entry, order[1..], tried + {order[0]}, now);
    CandidatesAreUsable(entry, order[1..], tried + {i}, now);
    if HasFallback(st.routes, i, now) && !early {
      var j :| 0 <= j < |st.routes| && j != i && Usable(st.routes[j], now);
      assert j !in tried && j in order[1..];
      assert j in rest;
    }
    if rest != [] {
      assert rest[0] in rest;
      assert Usable(st.routes[rest[0]], now) && rest[0] != i;
    }
  }

  /** The loop steps over an index without contacting it. */
  lemma SkipKeepsBetween(st: PoolState, next: PoolState, order: seq<nat>, tried: set<nat>, now: int, entry: seq<Route>,
                         early: bool)
    requires Between(st, order, tried, now, entry, early) && order != []
    requires |next.routes| == |st.routes| && forall j :: 0 <= j < |entry| && j != order[0] ==> next.routes[j] == st.routes[j]
    requires if order[0] in tried then next == st else !Usable(next.routes[order[0]], now)
    ensures Between(next, order[1..], tried + {order[0]}, now, entry, early)
  {
    var i := order[0];
    forall j | 0 <= j < |entry| && j !in tried + {i}
      ensures next.routes[j] == entry[j] && j in order[1..]
    {
      assert j in order;
    }
    assert forall j :: 0 <= j < |entry| && j in tried && j != i ==> (Usable(next.routes[j], now) <==> Usable(st.routes[j], now));
  }

  lemma FailureKeepsBetween(st: PoolState, next: PoolState, order: seq<nat>, tried: set<nat>, now: int, entry: seq<Route>,
                            early: bool, f: Failure, configured: int)
    requires Between(st, order, tried, now, entry, early) && order != [] && order[0] !in tried && Usable(entry[order[0]], now)
    requires |next.routes| == |st.routes| && forall j :: 0 <= j < |entry| && j != order[0] ==> next.routes[j] == st.routes[j]
    requires Settles(entry[order[0]], next.routes[order[0]], Some(f), true, now, configured)
    ensures Between(next, order[1..], tried + {order[0]}, now, entry, early || Delay(configured, f) <= 0)
  {
    var i := order[0];
    assert Usable(next.routes[i], now) <==> Delay(configured, f) <= 0;
    forall j | 0 <= j < |entry| && j !in tried + {i}
      ensures next.routes[j] == entry[j] && j in order[1..]
    {
      assert j in order;
    }
    if early {
      var j :| 0 <= j < |entry| && j in tried && Usable(st.routes[j], now);
      assert Usable(next.routes[j], now);
    }
    if j :| 0 <= j < |entry| && j in tried + {i} && Usable(next.routes[j], now) {
      assert j != i ==> j in tried && Usable(st.routes[j], now);
    }
  }

  lemma {:induction false} AttemptKeepsTried(st: PoolState, order: seq<nat>, tried: set<nat>, now: int, configured: int,
                                             transport: Transport, calls: seq<nat>, lastError: Option<Failure>, i: nat)
    requires InRange(order, |st.routes|) && i in tried && i < |st.routes|
    ensures Attempt(st, order, tried, now, configured, transport, calls, lastError).st.routes[i] == st.routes[i]
    decreases |order|
  {
    if order != [] {
      var j, rest := order[0], order[1..];
      var route := st.routes[j];
      if j in tried {
        AttemptKeepsTried(st, rest, tried, now, configured, transport, calls, lastError, i);
      } else if route.disabled {
        AttemptKeepsTried(st.(routes := st.routes[j := route.(state := Disabled)]), rest, tried + {j}, now, configured,
                          transport, calls, lastError, i);
      } else if route.cooldownUntil > now {
        AttemptKeepsTried(st, rest, tried + {j}, now, configured, transport, calls, lastError, i);
      } else {
        var result := transport(|calls|, route);
        var next := Contacted(st, j, result, now, configured);
        ContactSettles(st, j, result, now, configured);
        if result.Some? {
          AttemptKeepsTried(next, rest, tried + {j}, now, configured, transport, calls + [j], result, i);
        }
      }
    }
  }

  /** The calls of a run from the middle of an order: those made before, then some of the candidates. */
  lemma CallsGrow(st: PoolState, order: seq<nat>, tried: set<nat>, now: int, configured: int, transport: Transport,
                  calls: seq<nat>, lastError: Option<Failure>, entry: seq<Route>)
    requires |entry| == |st.routes| && InRange(order, |entry|) && InRange(calls, |entry|)
    requires forall i :: 0 <= i < |entry| && i !in tried ==> st.routes[i] == entry[i]
    ensures var all := Attempt(st, order, tried, now, configured, transport, calls, lastError).calls;
            && calls <= all && InRange(all, |entry|) && |all| <= |calls| + |Candidates(entry, order, tried, now)|
  {
    AttemptTriesCandidates(st, order, tried, now, configured, transport, calls, lastError, entry);
    TryEachStopsAtAnAnswer(entry, Candidates(entry, order, tried, now), transport, calls, lastError);
    var all := Attempt(st, order, tried, now, configured, transport, calls, lastError).calls;
    forall k | 0 <= k < |all|
      ensures all[k] < |entry|
    {
      if k < |calls| {
        assert all[k] == calls[k];
      }
    }
  }

  /** Contact `m` of the run settled its route, and cooled it exactly when another could have been contacted. */
  ghost predicate SettledAt(run: Attempts, entry: seq<Route>, base: nat, candidates: nat, early: bool, m: nat, now: int,
                            configured: int, transport: Transport)
    requires |run.st.routes| == |entry| && m < |run.calls| && InRange(run.calls, |entry|)
  {
    var i := run.calls[m];
    Settles(entry[i], run.st.routes[i], transport(m, entry[i]),
            HasOther(entry, run.calls, base, candidates, early, m, configured, transport), now, configured)
  }

  /** What `early` means one contact later. */
  lemma OneContactLater(entry: seq<Route>, calls: seq<nat>, base: nat, rest: nat, early: bool, m: nat, configured: int,
                        transport: Transport, f: Failure)
    requires base < m < |calls| && InRange(calls, |entry|) && transport(base, entry[calls[base]]) == Some(f)
    ensures HasOther(entry, calls, base + 1, rest, early || Delay(configured, f) <= 0, m, configured, transport)
       <==> HasOther(entry, calls, base, 1 + rest, early, m, configured, transport)
  {
    assert FailsBriefly(entry, calls, base, configured, transport) <==> Delay(configured, f) <= 0;
  }

  lemma {:induction false} AttemptSettles(st: PoolState, order: seq<nat>, tried: set<nat>, now: int, configured: int,
                                          transport: Transport, calls: seq<nat>, lastError: Option<Failure>,
                                          entry: seq<Route>, early: bool, m: nat)
    requires Between(st, order, tried, now, entry, early) && InRange(calls, |entry|)
    requires |calls| <= m < |Attempt(st, order, tried, now, configured, transport, calls, lastError).calls|
    ensures var run := Attempt(st, order, tried, now, configured, transport, calls, lastError);
            && InRange(run.calls, |entry|)
            && SettledAt(run, entry, |calls|, |Candidates(entry, order, tried, now)|, early, m, now, configured, transport)
    decreases |order|, 1
  {
    CallsGrow(st, order, tried, now, configured, transport, calls, lastError, entry);
    var i, rest := order[0], order[1..];
    var route := st.routes[i];
    if i in tried {
      SkipKeepsBetween(st, st, order, tried, now, entry, early);
      assert tried + {i} == tried;
      AttemptSettles(st, rest, tried, now, configured, transport, calls, lastError, entry, early, m);
    } else if route.disabled || route.cooldownUntil > now {
      var next := if route.disabled then st.(routes := st.routes[i := route.(state := Disabled)]) else st;
      SkipKeepsBetween(st, next, order, tried, now, entry, early);
      AttemptSettles(next, rest, tried + {i}, now, configured, transport, calls, lastError, entry, early, m);
      assert [] + Candidates(entry, rest, tried + {i}, now) == Candidates(entry, rest, tried + {i}, now);
    } else {
      ContactIsSettled(st, order, tried, now, configured, transport, calls, lastError, entry, early, m);
      if m > |calls| {
        LaterIsSettled(st, order, tried, now, configured, transport, calls, lastError, entry, early, m);
      }
    }
  }

  /** The first contact from here on. */
  lemma ContactIsSettled(st: PoolState, order: seq<nat>, tried: set<nat>, now: int, configured: int, transport: Transport,
                         calls: seq<nat>, lastError: Option<Failure>, entry: seq<Route>, early: bool, m: nat)
    requires Between(st, order, tried, now, entry, early) && InRange(calls, |entry|) && order != []
    requires order[0] !in tried && Usable(st.routes[order[0]], now)
    ensures var run := Attempt(st, order, tried, now, configured, transport, calls, lastError);
            && |calls| < |run.calls| && InRange(run.calls, |entry|)
            && SettledAt(run, entry, |calls|, |Candidates(entry, order, tried, now)|, early, |calls|, now, configured, transport)
  {
    var i, rest := order[0], order[1..];
    var result := transport(|calls|, st.routes[i]);
    var next := Contacted(st, i, result, now, configured);
    ContactSettles(st, i, result, now, configured);
    FallbackIff(st, order, tried, now, entry, early);
    CallsGrow(st, order, tried, now, configured, transport, calls, lastError, entry);
    if result.Some? {
      CallsGrow(next, rest, tried + {i}, now, configured, transport, calls + [i], result, entry);
      AttemptKeepsTried(next, rest, tried + {i}, now, configured, transport, calls + [i], result, i);
    }
    var all := Attempt(st, order, tried, now, configured, transport, calls, lastError).calls;
    assert calls + [i] <= all;
    assert all[|calls|] == (calls + [i])[|calls|];
  }

  /** A contact after a failure. */
  lemma {:induction false} LaterIsSettled(st: PoolState, order: seq<nat>, tried: set<nat>, now: int, configured: int,
                                          transport: Transport,
                       calls: seq<nat>, lastError: Option<Failure>, entry: seq<Route>, early: bool, m: nat)
    requires Between(st, order, tried, now, entry, early) && InRange(calls, |entry|) && order != []
    requires order[0] !in tried && Usable(st.routes[order[0]], now)
    requires |calls| < m < |Attempt(st, order, tried, now, configured, transport, calls, lastError).calls|
    ensures var run := Attempt(st, order, tried, now, configured, transport, calls, lastError);
            && InRange(run.calls, |entry|)
            && SettledAt(run, entry, |calls|, |Candidates(entry, order, tried, now)|, early, m, now, configured, transport)
    decreases |order|, 0
  {
    var i, rest := order[0], order[1..];
    var result := transport(|calls|, st.routes[i]);
    assert result.Some?;
    var f := result.value;
    var next := Contacted(st, i, result, now, configured);
    var more := Candidates(entry, rest, tried + {i}, now);
    ContactSettles(st, i, result, now, configured);
    FallbackIff(st, order, tried, now, entry, early);
    CallsGrow(next, rest, tried + {i}, now, configured, transport, calls + [i], result, entry);
    assert more != [];
    FailureKeepsBetween(st, next, order, tried, now, entry, early, f, configured);
    AttemptSettles(next, rest, tried + {i}, now, configured, transport, calls + [i], result, entry,
                   early || Delay(configured, f) <= 0, m);
    var all := Attempt(st, order, tried, now, configured, transport, calls, lastError).calls;
    assert all[|calls|] == (calls + [i])[|calls|];
    OneContactLater(entry, all, |calls|, |more|, early, m, configured, transport, f);
  }

  /** Contact `k` of an execution was not the only way out. */
  ghost predicate HadOther(st: PoolState, now: int, configured: int, transport: Transport, k: nat)
    requires var calls := ExecuteSpec(st, now, configured, transport).calls; k < |calls| && InRange(calls, |st.routes|)
  {
    HasOther(st.routes, ExecuteSpec(st, now, configured, transport).calls, 0, |CandidatesOf(st, now)|, false, k, configured, transport)
  }

  /**
   Every contact of an execution settles its route. A failed route cools exactly when another could have been contacted:
   a candidate still to come, or one whose failure before kept nobody out.
   */
  lemma ExecuteSettles(st: PoolState, now: int, configured: int, transport: Transport, k: nat)
    requires k < |ExecuteSpec(st, now, configured, transport).calls|
    ensures var run := ExecuteSpec(st, now, configured, transport);
            && InRange(run.calls, |st.routes|)
            && var i := run.calls[k];
               Settles(st.routes[i], run.st.routes[i], transport(k, st.routes[i]), HadOther(st, now, configured, transport, k),
                       now, configured)
  {
    var order := ExecutionOrder(st.routes, st.cursor);
    OrderInRange(st.routes, st.cursor);
    forall j | 0 <= j < |st.routes|
      ensures j in order
    {
      OrderCounts(st.routes, st.cursor, j);
    }
    AttemptSettles(st.(cursor := NextCursor(st.routes, st.cursor)), order, {}, now, configured, transport, [], None, st.routes,
                   false, k);
  }

  lemma {:induction false} AttemptMarksDisabled(st: PoolState, order: seq<nat>, tried: set<nat>, now: int, configured: int,
                                                transport: Transport, calls: seq<nat>, lastError: Option<Failure>, i: nat)
    requires InRange(order, |st.routes|) && i < |st.routes| && (i in tried || i in order)
    requires i in tried && st.routes[i].disabled ==> st.routes[i].state == Disabled
    ensures var run := Attempt(st, order, tried, now, configured, transport, calls, lastError);
            st.routes[i].disabled && run.answered.None? ==> run.st.routes[i].state == Disabled
    decreases |order|
  {
    if order != [] {
      var j, rest := order[0], order[1..];
      var route := st.routes[j];
      if j in tried {
        AttemptMarksDisabled(st, rest, tried, now, configured, transport, calls, lastError, i);
      } else if route.disabled {
        AttemptMarksDisabled(st.(routes := st.routes[j := route.(state := Disabled)]), rest, tried + {j}, now, configured,
                             transport, calls, lastError, i);
      } else if route.cooldownUntil > now {
        AttemptMarksDisabled(st, rest, tried + {j}, now, configured, transport, calls, lastError, i);
      } else {
        var result := transport(|calls|, route);
        ContactSettles(st, j, result, now, configured);
        if result.Some? {
          AttemptMarksDisabled(Contacted(st, j, result, now, configured), rest, tried + {j}, now, configured, transport,
                               calls + [j], result, i);
        }
      }
    }
  }

  lemma {:induction false} AttemptKeepsEnabled(st: PoolState, order: seq<nat>, tried: set<nat>, now: int, configured: int,
                                               transport: Transport, calls: seq<nat>, lastError: Option<Failure>, i: nat)
    requires InRange(order, |st.routes|) && i < |st.routes| && !st.routes[i].disabled
    ensures var run := Attempt(st, order, tried, now, configured, transport, calls, lastError);
            calls <= run.calls && (i !in run.calls ==> run.st.routes[i] == st.routes[i])
    decreases |order|
  {
    if order != [] {
      var j, rest := order[0], order[1..];
      var route := st.routes[j];
      if j in tried {
        AttemptKeepsEnabled(st, rest, tried, now, configured, transport, calls, lastError, i);
      } else if route.disabled {
        AttemptKeepsEnabled(st.(routes := st.routes[j := route.(state := Disabled)]), rest, tried + {j}, now, configured,
                            transport, calls, lastError, i);
      } else if route.cooldownUntil > now {
        AttemptKeepsEnabled(st, rest, tried + {j}, now, configured, transport, calls, lastError, i);
      } else {
        var result := transport(|calls|, route);
        ContactSettles(st, j, result, now, configured);
        assert j in calls + [j] && calls <= calls + [j];
        if result.Some? {
          var next := Contacted(st, j, result, now, configured);
          if i == j {
            AttemptCallsGrow(next, rest, tried + {j}, now, configured, transport, calls + [j], result);
          } else {
            AttemptKeepsEnabled(next, rest, tried + {j}, now, configured, transport, calls + [j], result, i);
          }
        }
      }
    }
  }

  lemma {:induction false} AttemptCallsGrow(st: PoolState, order: seq<nat>, tried: set<nat>, now: int, configured: int,
                                            transport: Transport, calls: seq<nat>, lastError: Option<Failure>)
    requires InRange(order, |st.routes|)
    ensures calls <= Attempt(st, order, tried, now, configured, transport, calls, lastError).calls
    decreases |order|
  {
    if order != [] {
      var j, rest := order[0], order[1..];
      var route := st.routes[j];
      if j in tried {
        AttemptCallsGrow(st, rest, tried, now, configured, transport, calls, lastError);
      } else if route.disabled {
        AttemptCallsGrow(st.(routes := st.routes[j := route.(state := Disabled)]), rest, tried + {j}, now, configured,
                         transport, calls, lastError);
      } else if route.cooldownUntil > now {
        AttemptCallsGrow(st, rest, tried + {j}, now, configured, transport, calls, lastError);
      } else {
        var result := transport(|calls|, route);
        if result.Some? {
          AttemptCallsGrow(Contacted(st, j, result, now, configured), rest, tried + {j}, now, configured, transport,
                           calls + [j], result);
        }
        assert calls <= calls + [j];
      }
    }
  }

  /** The routes an execution does not contact: an enabled one is left alone, a disabled one is marked when nobody answers. */
  lemma UncontactedRoutes(st: PoolState, now: int, configured: int, transport: Transport, i: nat)
    requires i < |st.routes| && i !in ExecuteSpec(st, now, configured, transport).calls
    ensures var run := ExecuteSpec(st, now, configured, transport);
            && (!st.routes[i].disabled ==> run.st.routes[i] == st.routes[i])
            && (st.routes[i].disabled && run.answered.None? ==> run.st.routes[i].state == Disabled)
  {
    var order := ExecutionOrder(st.routes, st.cursor);
    OrderInRange(st.routes, st.cursor);
    OrderCounts(st.routes, st.cursor, i);
    var start := st.(cursor := NextCursor(st.routes, st.cursor));
    AttemptMarksDisabled(start, order, {}, now, configured, transport, [], None, i);
    if !st.routes[i].disabled {
      AttemptKeepsEnabled(start, order, {}, now, configured, transport, [], None, i);
    }
  }

  /** What `Execute` returns: the route that answered, else the error of the last contact, else that there was no route. */
  lemma ExecuteReturns(st: PoolState, now: int, configured: int, transport: Transport)
    ensures var run := ExecuteSpec(st, now, configured, transport);
            && InRange(run.calls, |st.routes|)
            && if run.calls == [] then AnswerOf(run) == AllRoutesFailed(RouteUnavailable)
               else
                 var i := run.calls[|run.calls| - 1];
                 match transport(|run.calls| - 1, st.routes[i])
                 case None => AnswerOf(run) == Answered(run.st.routes[i])
                 case Some(f) => AnswerOf(run) == AllRoutesFailed(LastError(f))
  {
    ExecuteTriesEveryUsableRoute(st, now, configured, transport);
  }

  // ------------------------------------------------------------------ runs

  /** No call of the run contacts the route before the first call at `until` or later. */
  predicate RestsUntil(st: PoolState, configured: int, calls: seq<Call>, i: nat, until: int)
    decreases |calls|
  {
    calls != [] && calls[0].now < until ==>
      var run := ExecuteSpec(st, calls[0].now, configured, calls[0].transport);
      i !in run.calls && RestsUntil(run.st, configured, calls[1..], i, until)
  }

  lemma OnlyUsableAreContacted(st: PoolState, now: int, configured: int, transport: Transport, i: nat)
    requires i < |st.routes| && i in ExecuteSpec(st, now, configured, transport).calls
    ensures Usable(st.routes[i], now)
  {
    ExecuteTriesEveryUsableRoute(st, now, configured, transport);
    CandidatesAreTheUsableRoutes(st, now);
    var calls := ExecuteSpec(st, now, configured, transport).calls;
    var k :| 0 <= k < |calls| && calls[k] == i;
    assert CandidatesOf(st, now)[k] == i;
  }

  lemma {:induction false} RestKeepsCooldown(st: PoolState, order: seq<nat>, tried: set<nat>, now: int, configured: int,
                                             transport: Transport, calls: seq<nat>, lastError: Option<Failure>, i: nat)
    requires InRange(order, |st.routes|) && i < |st.routes| && !Usable(st.routes[i], now)
    ensures Attempt(st, order, tried, now, configured, transport, calls, lastError).st.routes[i].cooldownUntil
         == st.routes[i].cooldownUntil
    decreases |order|
  {
    if order != [] {
      var j, rest := order[0], order[1..];
      var route := st.routes[j];
      if j in tried {
        RestKeepsCooldown(st, rest, tried, now, configured, transport, calls, lastError, i);
      } else if route.disabled {
        RestKeepsCooldown(st.(routes := st.routes[j := route.(state := Disabled)]), rest, tried + {j}, now, configured,
                          transport, calls, lastError, i);
      } else if route.cooldownUntil > now {
        RestKeepsCooldown(st, rest, tried + {j}, now, configured, transport, calls, lastError, i);
      } else {
        var result := transport(|calls|, route);
        ContactSettles(st, j, result, now, configured);
        if result.Some? {
          RestKeepsCooldown(Contacted(st, j, result, now, configured), rest, tried + {j}, now, configured, transport,
                            calls + [j], result, i);
        }
      }
    }
  }

  lemma {:induction false} CoolingRouteRests(st: PoolState, configured: int, calls: seq<Call>, i: nat, until: int)
    requires i < |st.routes| && until <= st.routes[i].cooldownUntil
    ensures RestsUntil(st, configured, calls, i, until)
    decreases |calls|
  {
    if calls != [] && calls[0].now < until {
      var now, transport := calls[0].now, calls[0].transport;
      if i in ExecuteSpec(st, now, configured, transport).calls {
        OnlyUsableAreContacted(st, now, configured, transport, i);
      }
      OrderInRange(st.routes, st.cursor);
      RestKeepsCooldown(st.(cursor := NextCursor(st.routes, st.cursor)), ExecutionOrder(st.routes, st.cursor), {}, now,
                        configured, transport, [], None, i);
      CoolingRouteRests(ExecuteSpec(st, now, configured, transport).st, configured, calls[1..], i, until);
    }
  }

  lemma SettledRests(entry: Route, exit: PoolState, i: nat, f: Failure, cool: bool, now: int, configured: int, later: seq<Call>)
    requires i < |exit.routes| && Usable(entry, now) && Settles(entry, exit.routes[i], Some(f), cool, now, configured)
    ensures var until := now + Delay(configured, f);
            if cool then RestsUntil(exit, configured, later, i, until) && forall t :: Usable(exit.routes[i], t) <==> t >= until
            else forall t :: t >= ZERO_TIME ==> Usable(exit.routes[i], t)
  {
    if cool {
      CoolingRouteRests(exit, configured, later, i, now + Delay(configured, f));
    }
  }

  lemma ContactedIsUsable(st: PoolState, now: int, configured: int, transport: Transport, k: nat)
    requires k < |ExecuteSpec(st, now, configured, transport).calls|
    ensures var i := ExecuteSpec(st, now, configured, transport).calls[k]; i < |st.routes| && Usable(st.routes[i], now)
  {
    var i := ExecuteSpec(st, now, configured, transport).calls[k];
    ExecuteSettles(st, now, configured, transport, k);
    assert i in ExecuteSpec(st, now, configured, transport).calls;
    OnlyUsableAreContacted(st, now, configured, transport, i);
  }

  /**
   A route that fails while another could be contacted is not contacted again, whatever is called in between, before its
   delay is over, and is usable from then on. Without another it stays usable.
   */
  lemma FailedRouteRests(st: PoolState, now: int, configured: int, transport: Transport, k: nat, f: Failure, later: seq<Call>)
    requires var run := ExecuteSpec(st, now, configured, transport);
             k < |run.calls| && InRange(run.calls, |st.routes|) && transport(k, st.routes[run.calls[k]]) == Some(f)
    ensures var run := ExecuteSpec(st, now, configured, transport);
            var i, until := run.calls[k], now + Delay(configured, f);
            if HadOther(st, now, configured, transport, k)
            then RestsUntil(run.st, configured, later, i, until) && forall t :: Usable(run.st.routes[i], t) <==> t >= until
            else forall t :: t >= ZERO_TIME ==> Usable(run.st.routes[i], t)
  {
    var run := ExecuteSpec(st, now, configured, transport);
    var i := run.calls[k];
    ExecuteSettles(st, now, configured, transport, k);
    ContactedIsUsable(st, now, configured, transport, k);
    SettledRests(st.routes[i], run.st, i, f, HadOther(st, now, configured, transport, k), now, configured, later);
  }

  // ------------------------------------------------------------------ the log

  /** The event of one contact. */
  function EventOf(id: nat, route: Route, result: Option<Failure>, now: int, configured: int): Event {
    match result
    case None => Event(id, route.id, "recovered", 0, "", now)
    case Some(f) =>
      var asks := f.retryAfter.Some? && f.retryAfter.value > Delay(configured, f.(retryAfter := None));
      Event(id, route.id, if f.rateLimited then "rate_limited" else "network_error",
            if asks then f.retryAfter.value else 0, f.text, now)
  }

  /** An answer of a route that was well before is not logged. */
  predicate IsLogged(route: Route, result: Option<Failure>) {
    result.Some? || (route.state != Unset && route.state != Healthy)
  }

  /** The events of the contacts from `from` on, newest first; `id` is the last number given before. */
  function Fresh(entry: seq<Route>, calls: seq<nat>, from: nat, id: nat, now: int, configured: int,
                 transport: Transport): seq<Event>
    requires from <= |calls| && InRange(calls, |entry|)
    decreases |calls| - from
  {
    if from == |calls| then []
    else
      var route := entry[calls[from]];
      var result := transport(from, route);
      if IsLogged(route, result) then
        Fresh(entry, calls, from + 1, id + 1, now, configured, transport) + [EventOf(id + 1, route, result, now, configured)]
      else Fresh(entry, calls, from + 1, id, now, configured, transport)
  }

  /** The newest hundred of the new events and the old. */
  function LogAfter(news: seq<Event>, events: seq<Event>): seq<Event> {
    var all := news + events;
    if |all| > MAX_EVENTS then all[..MAX_EVENTS] else all
  }

  lemma LogTwice(a: seq<Event>, b: seq<Event>, events: seq<Event>)
    ensures LogAfter(b, LogAfter(a, events)) == LogAfter(b + a, events)
  {
  }

  function Own(route: Route, result: Option<Failure>, id: nat, now: int, configured: int): seq<Event> {
    if IsLogged(route, result) then [EventOf(id + 1, route, result, now, configured)] else []
  }

  lemma RecordLogs(st: PoolState, i: nat, event: Event, clock: int)
    requires i < |st.routes|
    ensures var dated := event.(id := st.nextEventID + 1, proxyID := st.routes[i].id,
                                createdAt := if event.createdAt == ZERO_TIME then clock else event.createdAt);
            var next := RecordEvent(st, i, event, clock);
            next.nextEventID == st.nextEventID + 1 && next.events == LogAfter([dated], st.events)
  {
  }

  lemma FailureEventIs(f: Failure, now: int, configured: int, id: nat, route: Route)
    ensures FailureEvent(f, now, configured).(id := id, proxyID := route.id) == EventOf(id, route, Some(f), now, configured)
  {
  }

  lemma ContactLogs(st: PoolState, i: nat, result: Option<Failure>, now: int, configured: int)
    requires i < |st.routes| && |st.events| <= MAX_EVENTS
    ensures var next := Contacted(st, i, result, now, configured);
            var own := Own(st.routes[i], result, st.nextEventID, now, configured);
            next.nextEventID == st.nextEventID + |own| && next.events == LogAfter(own, st.events)
  {
    match result
    case None =>
      RecordLogs(CountRequest(st, i), i, Event(0, "", "recovered", 0, "", now), now);
      assert [] + st.events == st.events;
    case Some(f) => FailureLogs(st, i, f, now, configured);
  }

  lemma FailureLogs(st: PoolState, i: nat, f: Failure, now: int, configured: int)
    requires i < |st.routes|
    ensures var next := Contacted(st, i, Some(f), now, configured);
            && next.nextEventID == st.nextEventID + 1
            && next.events == LogAfter([EventOf(st.nextEventID + 1, st.routes[i], Some(f), now, configured)], st.events)
  {
    var counted := CountRequest(st, i);
    var cool := HasFallback(counted.routes, i, now);
    var failed := counted.(routes := counted.routes[i := FailedRoute(counted.routes[i], f, now, cool, configured)]);
    RecordLogs(failed, i, FailureEvent(f, now, configured), now);
    FailureEventIs(f, now, configured, st.nextEventID + 1, st.routes[i]);
  }

  lemma FreshStep(entry: seq<Route>, calls: seq<nat>, from: nat, id: nat, now: int, configured: int, transport: Transport)
    requires from < |calls| && InRange(calls, |entry|)
    ensures var route := entry[calls[from]];
            var own := Own(route, transport(from, route), id, now, configured);
            Fresh(entry, calls, from, id, now, configured, transport)
            == Fresh(entry, calls, from + 1, id + |own|, now, configured, transport) + own
  {
    var route := entry[calls[from]];
    if !IsLogged(route, transport(from, route)) {
      assert Fresh(entry, calls, from + 1, id, now, configured, transport) + []
          == Fresh(entry, calls, from + 1, id, now, configured, transport);
    }
  }

  lemma {:induction false} AttemptLogs(st: PoolState, order: seq<nat>, tried: set<nat>, now: int, configured: int,
                                       transport: Transport, calls: seq<nat>, lastError: Option<Failure>, entry: seq<Route>)
    requires |entry| == |st.routes| && InRange(order, |entry|) && InRange(calls, |entry|) && |st.events| <= MAX_EVENTS
    requires forall i :: 0 <= i < |entry| && i !in tried ==> st.routes[i] == entry[i]
    ensures var run := Attempt(st, order, tried, now, configured, transport, calls, lastError);
            && calls <= run.calls && InRange(run.calls, |entry|)
            && run.st.events == LogAfter(Fresh(entry, run.calls, |calls|, st.nextEventID, now, configured, transport), st.events)
    decreases |order|, 1
  {
    CallsGrow(st, order, tried, now, configured, transport, calls, lastError, entry);
    if order == [] {
      assert [] + st.events == st.events;
    } else {
      var i, rest := order[0], order[1..];
      var route := st.routes[i];
      if i in tried {
        AttemptLogs(st, rest, tried, now, configured, transport, calls, lastError, entry);
      } else if route.disabled {
        AttemptLogs(st.(routes := st.routes[i := route.(state := Disabled)]), rest, tried + {i}, now, configured, transport,
                    calls, lastError, entry);
      } else if route.cooldownUntil > now {
        AttemptLogs(st, rest, tried + {i}, now, configured, transport, calls, lastError, entry);
      } else {
        ContactIsLogged(st, order, tried, now, configured, transport, calls, lastError, entry);
      }
    }
  }

  lemma {:induction false} ContactIsLogged(st: PoolState, order: seq<nat>, tried: set<nat>, now: int, configured: int,
                                           transport: Transport, calls: seq<nat>, lastError: Option<Failure>, entry: seq<Route>)
    requires |entry| == |st.routes| && InRange(order, |entry|) && InRange(calls, |entry|) && |st.events| <= MAX_EVENTS
    requires forall i :: 0 <= i < |entry| && i !in tried ==> st.routes[i] == entry[i]
    requires order != [] && order[0] !in tried && Usable(st.routes[order[0]], now)
    ensures var run := Attempt(st, order, tried, now, configured, transport, calls, lastError);
            && calls <= run.calls && InRange(run.calls, |entry|)
            && run.st.events == LogAfter(Fresh(entry, run.calls, |calls|, st.nextEventID, now, configured, transport), st.events)
    decreases |order|, 0
  {
    var i, rest := order[0], order[1..];
    var result := transport(|calls|, st.routes[i]);
    var next := Contacted(st, i, result, now, configured);
    var run := Attempt(st, order, tried, now, configured, transport, calls, lastError);
    CallsGrow(st, order, tried, now, configured, transport, calls, lastError, entry);
    ContactSettles(st, i, result, now, configured);
    ContactLogs(st, i, result, now, configured);
    if result.Some? {
      AttemptLogs(next, rest, tried + {i}, now, configured, transport, calls + [i], result, entry);
    } else {
      assert LogAfter([], next.events) == next.events;
    }
    ContactThenMore(st, i, result, next, now, configured, transport, calls, entry, run.calls, run.st.events);
  }

  /** The event of one contact and those of the contacts behind it. */
  lemma ContactThenMore(st: PoolState, i: nat, result: Option<Failure>, next: PoolState, now: int, configured: int,
                        transport: Transport, calls: seq<nat>, entry: seq<Route>, all: seq<nat>, events: seq<Event>)
    requires i < |entry| && InRange(all, |entry|) && calls + [i] <= all && transport(|calls|, entry[i]) == result
    requires var own := Own(entry[i], result, st.nextEventID, now, configured);
             next.nextEventID == st.nextEventID + |own| && next.events == LogAfter(own, st.events)
    requires events == LogAfter(Fresh(entry, all, |calls| + 1, next.nextEventID, now, configured, transport), next.events)
    ensures events == LogAfter(Fresh(entry, all, |calls|, st.nextEventID, now, configured, transport), st.events)
  {
    assert all[|calls|] == (calls + [i])[|calls|];
    FreshStep(entry, all, |calls|, st.nextEventID, now, configured, transport);
    LogTwice(Own(entry[i], result, st.nextEventID, now, configured),
             Fresh(entry, all, |calls| + 1, next.nextEventID, now, configured, transport), st.events);
  }

  /** What an execution logs: one event for each failure, and one when a route that was not well answers. */
  lemma ExecuteLogs(st: PoolState, now: int, configured: int, transport: Transport)
    requires |st.events| <= MAX_EVENTS
    ensures var run := ExecuteSpec(st, now, configured, transport);
            && InRange(run.calls, |st.routes|)
            && run.st.events == LogAfter(Fresh(st.routes, run.calls, 0, st.nextEventID, now, configured, transport), st.events)
  {
    OrderInRange(st.routes, st.cursor);
    AttemptLogs(st.(cursor := NextCursor(st.routes, st.cursor)), ExecutionOrder(st.routes, st.cursor), {}, now, configured,
                transport, [], None, st.routes);
  }
}
