/** What the route pool of core/internal/mojang/routes.go guarantees over one execution and over whole runs. */
module RoutePoolRuns {
  import opened Wrappers
  import opened RoutePool

  // ------------------------------------------------------------------ fairness

  lemma {:induction false} WeightedCounts(routes: seq<Route>, from: nat, i: nat)
    requires from <= |routes|
    ensures multiset(WeightedFrom(routes, from))[i]
         == if from <= i < |routes| then EffectiveWeight(routes[i]) else 0
    decreases |routes| - from
  {
    if from < |routes| {
      var n := EffectiveWeight(routes[from]);
      RepeatCounts(from, n, i);
      WeightedCounts(routes, from + 1, i);
      assert multiset(WeightedFrom(routes, from)) == multiset(Repeat(from, n)) + multiset(WeightedFrom(routes, from + 1));
    }
  }

  lemma {:induction false} RepeatCounts(x: nat, n: nat, i: nat)
    ensures multiset(Repeat(x, n))[i] == if i == x then n else 0
    decreases n
  {
    if n > 0 {
      RepeatCounts(x, n - 1, i);
      assert Repeat(x, n) == Repeat(x, n - 1) + [x];
    }
  }

  /** Every order is a rotation: it lists each route as often as its weight says. */
  lemma OrderCounts(routes: seq<Route>, cursor: nat, i: nat)
    requires i < |routes|
    ensures multiset(ExecutionOrder(routes, cursor))[i] == EffectiveWeight(routes[i])
    ensures i in ExecutionOrder(routes, cursor)
  {
    var w := Weighted(routes);
    WeightedCounts(routes, 0, i);
    assert multiset(w)[i] > 0;
    assert w != [];
    var start := Wrap(cursor, |w|);
    assert w == w[..start] + w[start..];
    assert i in multiset(ExecutionOrder(routes, cursor));
  }

  /** The heads of `n` consecutive orders. */
  function Heads(w: seq<nat>, cursor: nat, n: nat): seq<nat>
    decreases n
  {
    if n == 0 || OrderOf(w, cursor) == [] then [] else [OrderOf(w, cursor)[0]] + Heads(w, NextOf(w, cursor), n - 1)
  }

  /** `heads` is read off `w` from position `s` on, around its end. */
  ghost predicate ReadsAround(heads: seq<nat>, w: seq<nat>, s: nat) {
    s < |w| && |heads| <= |w| && forall k :: 0 <= k < |heads| ==> heads[k] == w[if s + k < |w| then s + k else s + k - |w|]
  }

  lemma ReadOneMore(head: nat, tail: seq<nat>, w: seq<nat>, s: nat)
    requires s < |w| && |tail| < |w| && head == w[s]
    requires ReadsAround(tail, w, Following(s, |w|))
    ensures ReadsAround([head] + tail, w, s)
  {
    var heads := [head] + tail;
    forall k | 0 <= k < |heads|
      ensures heads[k] == w[if s + k < |w| then s + k else s + k - |w|]
    {
      if k > 0 {
        assert heads[k] == tail[k - 1];
      }
    }
  }

  lemma FullTurn(heads: seq<nat>, w: seq<nat>, s: nat)
    requires ReadsAround(heads, w, s) && |heads| == |w|
    ensures heads == w[s..] + w[..s]
  {
  }

  /** The first elements of `n` consecutive rotations of `w`, the first one starting at `s`. */
  function HeadsOf(w: seq<nat>, s: nat, n: nat): seq<nat>
    requires s < |w|
    decreases n
  {
    if n == 0 then [] else [w[s]] + HeadsOf(w, Following(s, |w|), n - 1)
  }

  function Following(s: nat, n: nat): (t: nat)
    requires s < n
    ensures t < n
  {
    if s + 1 == n then 0 else s + 1
  }

  lemma {:induction false} HeadsOfRotate(w: seq<nat>, s: nat, n: nat)
    requires s < |w| && n <= |w|
    ensures |HeadsOf(w, s, n)| == n && ReadsAround(HeadsOf(w, s, n), w, s)
    decreases n
  {
    if n > 0 {
      HeadsOfRotate(w, Following(s, |w|), n - 1);
      ReadOneMore(w[s], HeadsOf(w, Following(s, |w|), n - 1), w, s);
    }
  }

  lemma {:induction false} WrapFollows(cursor: nat, n: nat)
    requires n > 0
    ensures Wrap(Wrap(cursor + 1, n), n) == Following(Wrap(cursor, n), n)
  {
    if cursor >= n {
      WrapFollows(cursor - n, n);
    }
  }

  lemma HeadsUnfold(w: seq<nat>, cursor: nat, n: nat)
    requires w != [] && n > 0
    ensures Heads(w, cursor, n) == [w[Wrap(cursor, |w|)]] + Heads(w, NextOf(w, cursor), n - 1)
  {
  }

  lemma {:induction false} HeadsAreHeadsOf(w: seq<nat>, cursor: nat, n: nat)
    requires w != []
    ensures Heads(w, cursor, n) == HeadsOf(w, Wrap(cursor, |w|), n)
    decreases n
  {
    if n > 0 {
      HeadsUnfold(w, cursor, n);
      WrapFollows(cursor, |w|);
      HeadsAreHeadsOf(w, NextOf(w, cursor), n - 1);
    }
  }

  lemma HeadsAreOneOrder(w: seq<nat>, cursor: nat)
    requires w != []
    ensures Heads(w, cursor, |w|) == OrderOf(w, cursor)
  {
    var s := Wrap(cursor, |w|);
    HeadsAreHeadsOf(w, cursor, |w|);
    HeadsOfRotate(w, s, |w|);
    FullTurn(HeadsOf(w, s, |w|), w, s);
  }

  /**
   Exact fairness: from any cursor, over as many consecutive orders as the weights add up to, each route
   heads exactly as many of them as its weight (a weight of zero or less counts as one).
   */
  lemma WeightedFairness(routes: seq<Route>, cursor: nat, i: nat)
    requires routes != [] && i < |routes|
    ensures multiset(Heads(Weighted(routes), cursor, |Weighted(routes)|))[i] == EffectiveWeight(routes[i])
    ensures Heads(Weighted(routes), cursor, 1) == [ExecutionOrder(routes, cursor)[0]]
  {
    OrderCounts(routes, cursor, i);
    HeadsAreOneOrder(Weighted(routes), cursor);
  }

  // ------------------------------------------------------------------ one execution, declaratively

  /** The usable routes of an order, each at its first occurrence. */
  function Candidates(routes: seq<Route>, order: seq<nat>, tried: set<nat>, now: int): (c: seq<nat>)
    requires InRange(order, |routes|)
    ensures InRange(c, |routes|)
    decreases |order|
  {
    if order == [] then []
    else if order[0] in tried then Candidates(routes, order[1..], tried, now)
    else
      (if Usable(routes[order[0]], now) then [order[0]] else [])
      + Candidates(routes, order[1..], tried + {order[0]}, now)
  }

  lemma {:induction false} CandidatesAreUsable(routes: seq<Route>, order: seq<nat>, tried: set<nat>, now: int)
    requires InRange(order, |routes|)
    ensures var c := Candidates(routes, order, tried, now);
            && (forall i :: i in c <==> i in order && i !in tried && Usable(routes[i], now))
            && (forall a, b :: 0 <= a < b < |c| ==> c[a] != c[b])
    decreases |order|
  {
    if order != [] {
      if order[0] in tried {
        CandidatesAreUsable(routes, order[1..], tried, now);
      } else {
        CandidatesAreUsable(routes, order[1..], tried + {order[0]}, now);
      }
    }
  }

  /** Contacting the candidates in turn until one answers: who answered, who was contacted, the last error. */
  function TryEach(routes: seq<Route>, candidates: seq<nat>, transport: Transport, calls: seq<nat>, lastError: Option<Failure>)
    : (r: (Option<nat>, seq<nat>, Option<Failure>))
    requires InRange(candidates, |routes|)
    decreases |candidates|
  {
    if candidates == [] then (None, calls, lastError)
    else
      var result := transport(|calls|, routes[candidates[0]]);
      if result.None? then (Some(candidates[0]), calls + [candidates[0]], lastError)
      else TryEach(routes, candidates[1..], transport, calls + [candidates[0]], result)
  }

  /**
   The calls from `base` on are the candidates in order; all fail but the one that answers; without an
   answer every candidate was called, and the error is the last one's.
   */
  ghost predicate StopsAtAnAnswer(routes: seq<Route>, candidates: seq<nat>, transport: Transport, base: nat,
                                  before: Option<Failure>, answered: Option<nat>, calls: seq<nat>, error: Option<Failure>) {
    var n := |calls|;
    && base <= n <= base + |candidates|
    && (forall k :: base <= k < n ==> calls[k] == candidates[k - base] && calls[k] < |routes|)
    && (forall k :: base <= k < (if answered.Some? then n - 1 else n) ==> transport(k, routes[calls[k]]).Some?)
    && match answered
       case Some(i) => n > base && i == calls[n - 1] && transport(n - 1, routes[i]).None?
       case None => n == base + |candidates| && error == (if n == base then before else transport(n - 1, routes[calls[n - 1]]))
  }

  lemma {:induction false} TryEachStopsAtAnAnswer(routes: seq<Route>, candidates: seq<nat>, transport: Transport,
                                                  calls: seq<nat>, lastError: Option<Failure>)
    requires InRange(candidates, |routes|)
    ensures var (answered, all, error) := TryEach(routes, candidates, transport, calls, lastError);
            calls <= all && StopsAtAnAnswer(routes, candidates, transport, |calls|, lastError, answered, all, error)
    decreases |candidates|
  {
    if candidates != [] {
      var c := candidates[0];
      var result := transport(|calls|, routes[c]);
      if result.Some? {
        TryEachStopsAtAnAnswer(routes, candidates[1..], transport, calls + [c], result);
        var (answered, all, error) := TryEach(routes, candidates[1..], transport, calls + [c], result);
        assert (calls + [c])[|calls|] == all[|calls|];
        assert calls <= calls + [c];
        StopsOneEarlier(routes, candidates, transport, |calls|, lastError, answered, all, error);
      }
    }
  }

  lemma StopsOneEarlier(routes: seq<Route>, candidates: seq<nat>, transport: Transport, base: nat,
                        before: Option<Failure>, answered: Option<nat>, calls: seq<nat>, error: Option<Failure>)
    requires InRange(candidates, |routes|) && candidates != [] && base < |calls| && calls[base] == candidates[0]
    requires transport(base, routes[candidates[0]]).Some?
    requires StopsAtAnAnswer(routes, candidates[1..], transport, base + 1, transport(base, routes[candidates[0]]),
                             answered, calls, error)
    ensures StopsAtAnAnswer(routes, candidates, transport, base, before, answered, calls, error)
  {
  }

  lemma ContactedChangesOne(st: PoolState, i: nat, result: Option<Failure>, now: int, configured: int)
    requires i < |st.routes|
    ensures var after := Contacted(st, i, result, now, configured).routes;
            && |after| == |st.routes|
            && (forall k :: 0 <= k < |after| && k != i ==> after[k] == st.routes[k])
            && after[i].requestCount == st.routes[i].requestCount + 1
            && SameIdentity(after[i], st.routes[i])
  {
  }

  /** The run that starts in the middle of an order, compared with the routes as they were at entry. */
  lemma {:induction false} AttemptTriesCandidates(st: PoolState, order: seq<nat>, tried: set<nat>, now: int, configured: int,
                                                  transport: Transport, calls: seq<nat>, lastError: Option<Failure>,
                                                  entry: seq<Route>)
    requires |entry| == |st.routes| && InRange(order, |entry|)
    requires forall i :: 0 <= i < |entry| && i !in tried ==> st.routes[i] == entry[i]
    ensures var run := Attempt(st, order, tried, now, configured, transport, calls, lastError);
            (run.answered, run.calls, run.lastError)
            == TryEach(entry, Candidates(entry, order, tried, now), transport, calls, lastError)
    decreases |order|
  {
    if order != [] {
      var i, rest := order[0], order[1..];
      if i in tried {
        AttemptTriesCandidates(st, rest, tried, now, configured, transport, calls, lastError, entry);
      } else if st.routes[i].disabled {
        AttemptTriesCandidates(st.(routes := st.routes[i := st.routes[i].(state := Disabled)]), rest, tried + {i}, now,
                               configured, transport, calls, lastError, entry);
        assert [] + Candidates(entry, rest, tried + {i}, now) == Candidates(entry, rest, tried + {i}, now);
      } else if st.routes[i].cooldownUntil > now {
        AttemptTriesCandidates(st, rest, tried + {i}, now, configured, transport, calls, lastError, entry);
        assert [] + Candidates(entry, rest, tried + {i}, now) == Candidates(entry, rest, tried + {i}, now);
      } else {
        var result := transport(|calls|, entry[i]);
        ContactedChangesOne(st, i, result, now, configured);
        assert ([i] + Candidates(entry, rest, tried + {i}, now))[1..] == Candidates(entry, rest, tried + {i}, now);
        if result.Some? {
          AttemptTriesCandidates(Contacted(st, i, result, now, configured), rest, tried + {i}, now, configured, transport,
                                 calls + [i], result, entry);
        }
      }
    }
  }

  /** The usable routes in the order in which `Execute` would contact them. */
  function CandidatesOf(st: PoolState, now: int): (c: seq<nat>)
    ensures InRange(c, |st.routes|)
  {
    OrderInRange(st.routes, st.cursor);
    Candidates(st.routes, ExecutionOrder(st.routes, st.cursor), {}, now)
  }

  /** The candidates are exactly the usable routes, each once. */
  lemma CandidatesAreTheUsableRoutes(st: PoolState, now: int)
    ensures var c := CandidatesOf(st, now);
            && (forall i :: 0 <= i < |st.routes| ==> (i in c <==> Usable(st.routes[i], now)))
            && (forall a, b :: 0 <= a < b < |c| ==> c[a] != c[b])
  {
    OrderInRange(st.routes, st.cursor);
    CandidatesAreUsable(st.routes, ExecutionOrder(st.routes, st.cursor), {}, now);
    forall i | 0 <= i < |st.routes| && Usable(st.routes[i], now)
      ensures i in CandidatesOf(st, now)
    {
      OrderCounts(st.routes, st.cursor, i);
    }
  }

  /**
   One `Execute` contacts its candidates in turn, each at most once. If it answers, the last one contacted
   answered and all before it failed; if it does not, every candidate was contacted and failed, and the
   error is that of the last one.
   */
  lemma ExecuteTriesEveryUsableRoute(st: PoolState, now: int, configured: int, transport: Transport)
    ensures var run := ExecuteSpec(st, now, configured, transport);
            StopsAtAnAnswer(st.routes, CandidatesOf(st, now), transport, 0, None, run.answered, run.calls, run.lastError)
  {
    var order := ExecutionOrder(st.routes, st.cursor);
    OrderInRange(st.routes, st.cursor);
    AttemptTriesCandidates(st.(cursor := NextCursor(st.routes, st.cursor)), order, {}, now, configured, transport, [], None,
                           st.routes);
    TryEachStopsAtAnAnswer(st.routes, CandidatesOf(st, now), transport, [], None);
  }

  // ------------------------------------------------------------------ the last usable route

  predicate SameIdentity(a: Route, b: Route) {
    a.id == b.id && a.kind == b.kind && a.url == b.url && a.weight == b.weight && a.disabled == b.disabled
  }

  predicate SameRoutes(a: seq<Route>, b: seq<Route>) {
    |a| == |b| && forall i :: 0 <= i < |a| ==> SameIdentity(a[i], b[i])
  }

  lemma FailureLeavesOneUsable(st: PoolState, i: nat, f: Failure, now: int, configured: int)
    requires i < |st.routes| && Usable(st.routes[i], now) && now >= ZERO_TIME
    ensures HasUsable(Contacted(st, i, Some(f), now, configured).routes, now)
  {
    var counted := CountRequest(st, i);
    var after := Contacted(st, i, Some(f), now, configured).routes;
    if HasFallback(counted.routes, i, now) {
      var k :| 0 <= k < |counted.routes| && k != i && Usable(counted.routes[k], now);
      assert after[k] == counted.routes[k];
    } else {
      assert Usable(after[i], now);
    }
  }

  lemma {:induction false} AttemptKeepsUsable(st: PoolState, order: seq<nat>, tried: set<nat>, now: int, configured: int,
                                              transport: Transport, calls: seq<nat>, lastError: Option<Failure>)
    requires InRange(order, |st.routes|) && now >= ZERO_TIME
    ensures var run := Attempt(st, order, tried, now, configured, transport, calls, lastError);
            && SameRoutes(run.st.routes, st.routes)
            && (HasUsable(st.routes, now) ==> HasUsable(run.st.routes, now))
    decreases |order|
  {
    if order != [] {
      var i, rest := order[0], order[1..];
      var route := st.routes[i];
      if i in tried {
        AttemptKeepsUsable(st, rest, tried, now, configured, transport, calls, lastError);
      } else if route.disabled {
        var next := st.(routes := st.routes[i := route.(state := Disabled)]);
        AttemptKeepsUsable(next, rest, tried + {i}, now, configured, transport, calls, lastError);
        if HasUsable(st.routes, now) {
          var k :| 0 <= k < |st.routes| && Usable(st.routes[k], now);
          assert Usable(next.routes[k], now);
        }
      } else if route.cooldownUntil > now {
        AttemptKeepsUsable(st, rest, tried + {i}, now, configured, transport, calls, lastError);
      } else {
        var result := transport(|calls|, route);
        var next := Contacted(st, i, result, now, configured);
        ContactedChangesOne(st, i, result, now, configured);
        match result
        case None => assert Usable(next.routes[i], now);
        case Some(f) =>
          FailureLeavesOneUsable(st, i, f, now, configured);
          AttemptKeepsUsable(next, rest, tried + {i}, now, configured, transport, calls + [i], result);
      }
    }
  }

  /** Cooling never takes the last usable route away, and later only makes more routes usable. */
  lemma ExecuteKeepsUsable(st: PoolState, now: int, later: int, configured: int, transport: Transport)
    requires ZERO_TIME <= now <= later
    ensures SameRoutes(ExecuteSpec(st, now, configured, transport).st.routes, st.routes)
    ensures HasUsable(st.routes, now) ==> HasUsable(ExecuteSpec(st, now, configured, transport).st.routes, later)
  {
    OrderInRange(st.routes, st.cursor);
    AttemptKeepsUsable(st.(cursor := NextCursor(st.routes, st.cursor)), ExecutionOrder(st.routes, st.cursor), {}, now,
                       configured, transport, [], None);
    var after := ExecuteSpec(st, now, configured, transport).st.routes;
    if HasUsable(after, now) {
      var k :| 0 <= k < |after| && Usable(after[k], now);
      assert Usable(after[k], later);
    }
  }

  /** One call of `Execute` in a run. */
  datatype Call = Call(now: int, transport: Transport)

  predicate ClockRuns(from: int, calls: seq<Call>)
    decreases |calls|
  {
    calls != [] ==> from <= calls[0].now && ClockRuns(calls[0].now, calls[1..])
  }

  /** Every call of the run contacts at least one route. */
  predicate EveryCallContacts(st: PoolState, configured: int, calls: seq<Call>)
    decreases |calls|
  {
    calls != [] ==>
      var run := ExecuteSpec(st, calls[0].now, configured, calls[0].transport);
      run.calls != [] && EveryCallContacts(run.st, configured, calls[1..])
  }

  /** A call contacts nothing exactly when no route is usable. */
  lemma ContactsIffUsable(st: PoolState, now: int, configured: int, transport: Transport)
    ensures ExecuteSpec(st, now, configured, transport).calls != [] <==> HasUsable(st.routes, now)
  {
    ExecuteTriesEveryUsableRoute(st, now, configured, transport);
    CandidatesAreTheUsableRoutes(st, now);
    var c := CandidatesOf(st, now);
    if c != [] {
      assert c[0] in c;
    }
  }

  /** Over every run with a clock that does not go back: once a route is usable, no call is ever left without one. */
  lemma {:induction false} PoolNeverRunsDry(st: PoolState, configured: int, from: int, calls: seq<Call>)
    requires ZERO_TIME <= from && ClockRuns(from, calls) && HasUsable(st.routes, from)
    ensures EveryCallContacts(st, configured, calls)
    decreases |calls|
  {
    if calls != [] {
      var now, transport := calls[0].now, calls[0].transport;
      var i :| 0 <= i < |st.routes| && Usable(st.routes[i], from);
      assert Usable(st.routes[i], now);
      ContactsIffUsable(st, now, configured, transport);
      ExecuteKeepsUsable(st, now, now, configured, transport);
      PoolNeverRunsDry(ExecuteSpec(st, now, configured, transport).st, configured, now, calls[1..]);
    }
  }

  // ------------------------------------------------------------------ bookkeeping

  /** The log holds the latest events, newest first, numbered without gaps, and at most a hundred. */
  predicate LogInOrder(st: PoolState) {
    && |st.events| == (if st.nextEventID < MAX_EVENTS then st.nextEventID else MAX_EVENTS)
    && forall k :: 0 <= k < |st.events| ==> st.events[k].id == st.nextEventID - k
  }

  lemma ContactKeepsLog(st: PoolState, i: nat, result: Option<Failure>, now: int, configured: int)
    requires i < |st.routes| && LogInOrder(st)
    ensures LogInOrder(Contacted(st, i, result, now, configured))
  {
  }

  /** An execution keeps the log in order and counts exactly one request for each route it contacts. */
  lemma {:induction false} AttemptKeepsBooks(st: PoolState, order: seq<nat>, tried: set<nat>, now: int, configured: int,
                                             transport: Transport, calls: seq<nat>, lastError: Option<Failure>)
    requires InRange(order, |st.routes|) && LogInOrder(st) && forall i :: i in calls ==> i in tried
    ensures var run := Attempt(st, order, tried, now, configured, transport, calls, lastError);
            && LogInOrder(run.st)
            && calls <= run.calls
            && (forall i :: 0 <= i < |st.routes| ==>
                  run.st.routes[i].requestCount
                  == st.routes[i].requestCount + (if i in run.calls && i !in calls then 1 else 0))
            && (forall i :: 0 <= i < |st.routes| && !(i in run.calls && i !in calls) ==>
                  run.st.routes[i] == st.routes[i] || run.st.routes[i] == st.routes[i].(state := Disabled))
            && (forall i :: i in tried && i in run.calls ==> i in calls)
    decreases |order|
  {
    if order != [] {
      var i, rest := order[0], order[1..];
      var route := st.routes[i];
      if i in tried {
        AttemptKeepsBooks(st, rest, tried, now, configured, transport, calls, lastError);
      } else if route.disabled {
        var next := st.(routes := st.routes[i := route.(state := Disabled)]);
        AttemptKeepsBooks(next, rest, tried + {i}, now, configured, transport, calls, lastError);
      } else if route.cooldownUntil > now {
        AttemptKeepsBooks(st, rest, tried + {i}, now, configured, transport, calls, lastError);
      } else {
        var result := transport(|calls|, route);
        var next := Contacted(st, i, result, now, configured);
        ContactedChangesOne(st, i, result, now, configured);
        ContactKeepsLog(st, i, result, now, configured);
        assert i in calls + [i] && i !in calls;
        if result.Some? {
          AttemptKeepsBooks(next, rest, tried + {i}, now, configured, transport, calls + [i], result);
          var run := Attempt(next, rest, tried + {i}, now, configured, transport, calls + [i], result);
          assert calls <= calls + [i] <= run.calls;
          assert i in run.calls;
        } else {
          assert next.routes[i].requestCount == st.routes[i].requestCount + 1;
        }
      }
    }
  }

  /** `Execute` keeps the log in order, counts one request for each route it contacts, and leaves the others alone. */
  lemma ExecuteKeepsBooks(st: PoolState, now: int, configured: int, transport: Transport)
    requires LogInOrder(st)
    ensures var run := ExecuteSpec(st, now, configured, transport);
            && LogInOrder(run.st)
            && forall i :: 0 <= i < |st.routes| ==>
                 && run.st.routes[i].requestCount == st.routes[i].requestCount + (if i in run.calls then 1 else 0)
                 && (i !in run.calls ==>
                       run.st.routes[i] == st.routes[i] || run.st.routes[i] == st.routes[i].(state := Disabled))
  {
    OrderInRange(st.routes, st.cursor);
    AttemptKeepsBooks(st.(cursor := NextCursor(st.routes, st.cursor)), ExecutionOrder(st.routes, st.cursor), {}, now,
                      configured, transport, [], None);
  }
}
