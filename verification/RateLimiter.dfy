/**
 The per-address fixed-window rate limiter of limbo/rate_limit.go. Clock values are nanoseconds since
 Go's zero time and reach `Allow` in the order in which it runs; the address is its `rateLimitKey`.
 */
module RateLimiter {

  const DEFAULT_REQUESTS := 60
  const DEFAULT_WINDOW := 1_000_000_000

  datatype Entry = Entry(count: int, reset: int)

  datatype Config = Config(requests: int, window: int) {
    predicate Valid() {
      requests > 0 && window > 0
    }
  }

  /** `NewRateLimiter`'s defaults. */
  function Normalize(requests: int, window: int): (c: Config)
    ensures c.Valid()
    ensures requests > 0 ==> c.requests == requests
    ensures window > 0 ==> c.window == window
  {
    Config(if requests <= 0 then DEFAULT_REQUESTS else requests, if window <= 0 then DEFAULT_WINDOW else window)
  }

  function EntryAt(c: Config, entries: map<string, Entry>, key: string, now: int): Entry {
    var found := if key in entries then entries[key] else Entry(0, 0);
    if found.reset == 0 || now >= found.reset then Entry(0, now + c.window) else found
  }

  /** `Allow` of a limiter that never deletes entries. */
  function Admit(c: Config, entries: map<string, Entry>, key: string, now: int): (map<string, Entry>, bool) {
    var e := EntryAt(c, entries, key, now);
    if e.count >= c.requests then (entries[key := e], false)
    else (entries[key := e.(count := e.count + 1)], true)
  }

  /** `cleanup`. */
  function Live(entries: map<string, Entry>, now: int): map<string, Entry> {
    map k | k in entries && now < entries[k].reset :: entries[k]
  }

  /** `Allow`, which cleans up when it admits a request and the map has grown too large. */
  function Allow(c: Config, entries: map<string, Entry>, key: string, now: int): (map<string, Entry>, bool) {
    var (after, admitted) := Admit(c, entries, key, now);
    (if admitted && |after| > c.requests * 32 then Live(after, now) else after, admitted)
  }

  class Limiter {
    const config: Config
    var entries: map<string, Entry>

    constructor (requests: int, window: int)
      ensures config == Normalize(requests, window) && entries == map[]
    {
      config := Normalize(requests, window);
      entries := map[];
    }

    method allow(key: string, now: int) returns (admitted: bool)
      modifies this`entries
      ensures (entries, admitted) == Allow(config, old(entries), key, now)
    {
      var entry := if key in entries then entries[key] else Entry(0, 0);
      if entry.reset == 0 || now >= entry.reset {
        entry := Entry(0, now + config.window);
      }
      if entry.count >= config.requests {
        entries := entries[key := entry];
        return false;
      }
      entry := entry.(count := entry.count + 1);
      entries := entries[key := entry];
      if |entries| > config.requests * 32 {
        cleanup(now);
      }
      return true;
    }

    /** The map is walked in an arbitrary order. */
    method cleanup(now: int)
      modifies this`entries
      ensures entries == Live(old(entries), now)
    {
      var left := entries.Keys;
      ghost var before := entries;
      while left != {}
        invariant left <= before.Keys
        invariant entries.Keys <= before.Keys && left <= entries.Keys
        invariant forall k :: k in entries ==> entries[k] == before[k]
        invariant forall k :: k in before && k !in left ==> (k in entries <==> now < before[k].reset)
        decreases left
      {
        var key :| key in left;
        if now >= entries[key].reset {
          entries := entries - {key};
        }
        left := left - {key};
      }
    }
  }

  // ------------------------------------------------------------------ runs

  datatype Request = Request(key: string, now: int)

  /** The clock never goes back, and stays after Go's zero time. */
  predicate ClockRuns(from: int, rs: seq<Request>)
    decreases |rs|
  {
    rs != [] ==> from <= rs[0].now && ClockRuns(rs[0].now, rs[1..])
  }

  function Decisions(c: Config, entries: map<string, Entry>, rs: seq<Request>): seq<bool>
    decreases |rs|
  {
    if rs == [] then []
    else
      var (after, admitted) := Allow(c, entries, rs[0].key, rs[0].now);
      [admitted] + Decisions(c, after, rs[1..])
  }

  /** The decisions of the limiter that never deletes entries. */
  function PlainDecisions(c: Config, entries: map<string, Entry>, rs: seq<Request>): seq<bool>
    decreases |rs|
  {
    if rs == [] then []
    else
      var (after, admitted) := Admit(c, entries, rs[0].key, rs[0].now);
      [admitted] + PlainDecisions(c, after, rs[1..])
  }

  /** From `now` on the two maps act alike: they differ at most in entries that have expired. */
  ghost predicate SameUntilExpiry(a: map<string, Entry>, b: map<string, Entry>, now: int) {
    && (forall k :: k in a ==> k in b && a[k] == b[k])
    && (forall k :: k in b && k !in a ==> b[k].reset <= now)
  }

  lemma AdmitAgrees(c: Config, a: map<string, Entry>, b: map<string, Entry>, from: int, key: string, now: int)
    requires SameUntilExpiry(a, b, from) && from <= now
    ensures Admit(c, a, key, now).1 == Admit(c, b, key, now).1
    ensures SameUntilExpiry(Admit(c, a, key, now).0, Admit(c, b, key, now).0, now)
    ensures SameUntilExpiry(Live(Admit(c, a, key, now).0, now), Admit(c, b, key, now).0, now)
  {
    assert EntryAt(c, a, key, now) == EntryAt(c, b, key, now);
  }

  /** Cleaning up never changes a decision. */
  lemma {:induction false} CleanupIsInvisible(c: Config, a: map<string, Entry>, b: map<string, Entry>, from: int,
                                              rs: seq<Request>)
    requires SameUntilExpiry(a, b, from) && ClockRuns(from, rs)
    ensures Decisions(c, a, rs) == PlainDecisions(c, b, rs)
    decreases |rs|
  {
    if rs != [] {
      AdmitAgrees(c, a, b, from, rs[0].key, rs[0].now);
      CleanupIsInvisible(c, Allow(c, a, rs[0].key, rs[0].now).0, Admit(c, b, rs[0].key, rs[0].now).0, rs[0].now, rs[1..]);
    }
  }

  // ------------------------------------------------------------------ how much is admitted

  /** The number of admitted requests of `key` with a time in `lo..hi`. */
  function Admitted(rs: seq<Request>, ds: seq<bool>, key: string, lo: int, hi: int): nat
    requires |rs| == |ds|
    decreases |rs|
  {
    if rs == [] then 0
    else
      var n := |rs| - 1;
      Admitted(rs[..n], ds[..n], key, lo, hi) + (if ds[n] && rs[n].key == key && lo <= rs[n].now < hi then 1 else 0)
  }

  lemma {:induction false} AdmittedSplits(rs: seq<Request>, ds: seq<bool>, key: string, lo: int, mid: int, hi: int)
    requires |rs| == |ds| && lo <= mid <= hi
    ensures Admitted(rs, ds, key, lo, hi) == Admitted(rs, ds, key, lo, mid) + Admitted(rs, ds, key, mid, hi)
    decreases |rs|
  {
    if rs != [] {
      var n := |rs| - 1;
      AdmittedSplits(rs[..n], ds[..n], key, lo, mid, hi);
    }
  }

  lemma AdmittedMonotone(rs: seq<Request>, ds: seq<bool>, key: string, lo: int, lo': int, hi: int, hi': int)
    requires |rs| == |ds| && lo' <= lo <= hi <= hi'
    ensures Admitted(rs, ds, key, lo, hi) <= Admitted(rs, ds, key, lo', hi')
  {
    AdmittedSplits(rs, ds, key, lo', lo, hi');
    AdmittedSplits(rs, ds, key, lo, hi, hi');
  }

  /** The admissions in the half-open span of one window's length from `lo`. */
  function Span(c: Config, rs: seq<Request>, ds: seq<bool>, key: string, lo: int): nat
    requires |rs| == |ds|
  {
    Admitted(rs, ds, key, lo, lo + c.window)
  }

  /** Entry `e` describes the window of `key` that the history leads to; its start is not after `now`. */
  ghost predicate Describes(c: Config, e: Entry, key: string, rs: seq<Request>, ds: seq<bool>, now: int)
    requires |rs| == |ds|
  {
    var start := e.reset - c.window;
    && 0 <= start <= now && 0 <= e.count <= c.requests
    && Admitted(rs, ds, key, start, e.reset) == e.count
    && (forall hi :: hi >= e.reset ==> Admitted(rs, ds, key, e.reset, hi) == 0)
    && (forall lo :: start - c.window < lo <= start ==> Admitted(rs, ds, key, lo, start) <= c.requests - 1)
  }

  /** The request that opened the window was admitted at its start. */
  predicate Opened(c: Config, e: Entry, key: string, rs: seq<Request>, ds: seq<bool>)
    requires |rs| == |ds|
  {
    var start := e.reset - c.window;
    Admitted(rs, ds, key, start, start + 1) >= 1
  }

  /** What the entries say about the history of `key`, and the bounds on it. */
  ghost predicate Knows(c: Config, entries: map<string, Entry>, key: string, rs: seq<Request>, ds: seq<bool>, now: int) {
    && |rs| == |ds| && c.Valid()
    && (key !in entries ==> forall lo, hi :: lo <= hi ==> Admitted(rs, ds, key, lo, hi) == 0)
    && (key in entries ==> Describes(c, entries[key], key, rs, ds, now) && Opened(c, entries[key], key, rs, ds))
    && (forall lo :: Span(c, rs, ds, key, lo) <= 2 * c.requests - 1)
  }

  lemma AdmittedAppend(rs: seq<Request>, ds: seq<bool>, r: Request, d: bool, key: string, lo: int, hi: int)
    requires |rs| == |ds|
    ensures Admitted(rs + [r], ds + [d], key, lo, hi)
         == Admitted(rs, ds, key, lo, hi) + (if d && r.key == key && lo <= r.now < hi then 1 else 0)
  {
    assert (rs + [r])[..|rs|] == rs && (ds + [d])[..|rs|] == ds;
  }

  /** A request that is refused or has another key leaves the counts of `key` alone. */
  lemma NothingAdmitted(rs: seq<Request>, ds: seq<bool>, r: Request, d: bool, key: string)
    requires |rs| == |ds| && !(d && r.key == key)
    ensures forall lo, hi :: Admitted(rs + [r], ds + [d], key, lo, hi) == Admitted(rs, ds, key, lo, hi)
  {
    forall lo, hi
      ensures Admitted(rs + [r], ds + [d], key, lo, hi) == Admitted(rs, ds, key, lo, hi)
    {
      AdmittedAppend(rs, ds, r, d, key, lo, hi);
    }
  }

  /** The entry `Allow` works with describes a window that contains the current time. */
  lemma WindowIsOpen(c: Config, entries: map<string, Entry>, key: string, rs: seq<Request>, ds: seq<bool>, now: int, t: int)
    requires Knows(c, entries, key, rs, ds, now) && 0 <= now <= t
    ensures var e := EntryAt(c, entries, key, t);
            && t < e.reset && Describes(c, e, key, rs, ds, t)
            && (Opened(c, e, key, rs, ds) || (e.count == 0 && t == e.reset - c.window))
  {
    if key in entries && t >= entries[key].reset {
      var old' := entries[key];
      var start := old'.reset - c.window;
      forall hi | hi >= t
        ensures Admitted(rs, ds, key, t, hi) == 0
      {
        AdmittedMonotone(rs, ds, key, t, old'.reset, hi, hi);
      }
      forall lo | t - c.window < lo <= t
        ensures Admitted(rs, ds, key, lo, t) <= c.requests - 1
      {
        AdmittedMonotone(rs, ds, key, lo, start + 1, t, t);
        AdmittedSplits(rs, ds, key, start, start + 1, t);
        AdmittedSplits(rs, ds, key, start, old'.reset, t);
      }
      var end := t + c.window;
      forall hi | hi >= end
        ensures Admitted(rs, ds, key, end, hi) == 0
      {
        AdmittedSplits(rs, ds, key, t, end, hi);
      }
    }
  }

  /** One more admission still leaves every span below twice the limit. */
  lemma SpanStaysBounded(c: Config, e: Entry, key: string, rs: seq<Request>, ds: seq<bool>, t: int, lo: int)
    requires |rs| == |ds| && c.Valid() && t < e.reset && Describes(c, e, key, rs, ds, t) && e.count < c.requests
    requires lo <= t < lo + c.window
    ensures Span(c, rs, ds, key, lo) + 1 <= 2 * c.requests - 1
  {
    var start, hi := e.reset - c.window, lo + c.window;
    var far := if hi < e.reset then e.reset else hi;
    AdmittedSplits(rs, ds, key, start, e.reset, far);
    if lo >= start {
      AdmittedMonotone(rs, ds, key, lo, start, hi, far);
    } else {
      AdmittedSplits(rs, ds, key, lo, start, hi);
      AdmittedMonotone(rs, ds, key, start, start, hi, far);
    }
  }

  lemma AdmissionKnows(c: Config, entries: map<string, Entry>, rs: seq<Request>, ds: seq<bool>, now: int, r: Request)
    requires Knows(c, entries, r.key, rs, ds, now) && 0 <= now <= r.now
    requires EntryAt(c, entries, r.key, r.now).count < c.requests
    ensures Knows(c, Admit(c, entries, r.key, r.now).0, r.key, rs + [r], ds + [true], r.now)
  {
    var e := EntryAt(c, entries, r.key, r.now);
    var rs', ds' := rs + [r], ds + [true];
    WindowIsOpen(c, entries, r.key, rs, ds, now, r.now);
    forall lo
      ensures Span(c, rs', ds', r.key, lo) <= 2 * c.requests - 1
    {
      AdmittedAppend(rs, ds, r, true, r.key, lo, lo + c.window);
      assert Span(c, rs, ds, r.key, lo) <= 2 * c.requests - 1;
      if lo <= r.now < lo + c.window {
        SpanStaysBounded(c, e, r.key, rs, ds, r.now, lo);
      }
    }
    var start := e.reset - c.window;
    AdmittedAppend(rs, ds, r, true, r.key, start, e.reset);
    AdmittedAppend(rs, ds, r, true, r.key, start, start + 1);
    forall hi | hi >= e.reset
      ensures Admitted(rs', ds', r.key, e.reset, hi) == 0
    {
      AdmittedAppend(rs, ds, r, true, r.key, e.reset, hi);
    }
    forall lo | start - c.window < lo <= start
      ensures Admitted(rs', ds', r.key, lo, start) <= c.requests - 1
    {
      AdmittedAppend(rs, ds, r, true, r.key, lo, start);
    }
  }

  lemma RequestKnows(c: Config, entries: map<string, Entry>, key: string, rs: seq<Request>, ds: seq<bool>, now: int, r: Request)
    requires Knows(c, entries, key, rs, ds, now) && 0 <= now <= r.now
    ensures var (after, d) := Admit(c, entries, r.key, r.now); Knows(c, after, key, rs + [r], ds + [d], r.now)
  {
    var (after, d) := Admit(c, entries, r.key, r.now);
    if r.key == key && d {
      AdmissionKnows(c, entries, rs, ds, now, r);
    } else {
      NothingAdmitted(rs, ds, r, d, key);
      forall lo
        ensures Span(c, rs + [r], ds + [d], key, lo) <= 2 * c.requests - 1
      {
        assert Span(c, rs, ds, key, lo) <= 2 * c.requests - 1;
      }
      if r.key == key {
        WindowIsOpen(c, entries, key, rs, ds, now, r.now);
      }
    }
  }

  /** The entries of the limiter that never deletes any, after the run. */
  function PlainEntries(c: Config, entries: map<string, Entry>, rs: seq<Request>): map<string, Entry>
    decreases |rs|
  {
    if rs == [] then entries else PlainEntries(c, Admit(c, entries, rs[0].key, rs[0].now).0, rs[1..])
  }

  /** Every run keeps what the entries say about a key true of its history. */
  lemma {:induction false} RunKnows(c: Config, entries: map<string, Entry>, key: string, past: seq<Request>, ds: seq<bool>,
                                    now: int, rs: seq<Request>)
    requires Knows(c, entries, key, past, ds, now) && 0 <= now && ClockRuns(now, rs)
    ensures |PlainDecisions(c, entries, rs)| == |rs|
    ensures Knows(c, PlainEntries(c, entries, rs), key, past + rs, ds + PlainDecisions(c, entries, rs),
                  if rs == [] then now else rs[|rs| - 1].now)
    decreases |rs|
  {
    if rs == [] {
      assert past + rs == past && ds + PlainDecisions(c, entries, rs) == ds;
    } else {
      RequestKnows(c, entries, key, past, ds, now, rs[0]);
      var (after, d) := Admit(c, entries, rs[0].key, rs[0].now);
      RunKnows(c, after, key, past + [rs[0]], ds + [d], rs[0].now, rs[1..]);
      MoveFirst(past, rs[0], rs[1..]);
      assert [rs[0]] + rs[1..] == rs;
      assert PlainDecisions(c, entries, rs) == [d] + PlainDecisions(c, after, rs[1..]);
      MoveFirst(ds, d, PlainDecisions(c, after, rs[1..]));
    }
  }

  lemma MoveFirst<T>(before: seq<T>, x: T, rest: seq<T>)
    ensures before + [x] + rest == before + ([x] + rest)
  {
  }

  /**
   Over every run of a fresh limiter, cleanups included, an address is admitted less than twice `requests`
   times in any half-open span of one window's length; and its latest window, counted by its entry, at
   most `requests` times.
   */
  lemma AdmissionsAreBounded(c: Config, rs: seq<Request>, key: string, lo: int)
    requires c.Valid() && ClockRuns(0, rs)
    ensures |Decisions(c, map[], rs)| == |rs|
    ensures Span(c, rs, Decisions(c, map[], rs), key, lo) <= 2 * c.requests - 1
    ensures key in PlainEntries(c, map[], rs) ==>
              var e := PlainEntries(c, map[], rs)[key];
              Admitted(rs, Decisions(c, map[], rs), key, e.reset - c.window, e.reset) == e.count <= c.requests
  {
    CleanupIsInvisible(c, map[], map[], 0, rs);
    FreshRunKnows(c, rs, key);
  }

  lemma FreshRunKnows(c: Config, rs: seq<Request>, key: string)
    requires c.Valid() && ClockRuns(0, rs)
    ensures |PlainDecisions(c, map[], rs)| == |rs|
    ensures Knows(c, PlainEntries(c, map[], rs), key, rs, PlainDecisions(c, map[], rs), if rs == [] then 0 else rs[|rs| - 1].now)
  {
    RunKnows(c, map[], key, [], [], 0, rs);
    NothingBefore(rs);
    NothingBefore(PlainDecisions(c, map[], rs));
  }

  lemma NothingBefore<T>(s: seq<T>)
    ensures [] + s == s
  {
  }

  // ------------------------------------------------------------------ every window

  lemma {:induction false} AdmittedConcat(a: seq<Request>, ds: seq<bool>, b: seq<Request>, es: seq<bool>, key: string,
                                          lo: int, hi: int)
    requires |a| == |ds| && |b| == |es|
    ensures Admitted(a + b, ds + es, key, lo, hi) == Admitted(a, ds, key, lo, hi) + Admitted(b, es, key, lo, hi)
    decreases |b|
  {
    if b == [] {
      assert a + b == a && ds + es == ds;
    } else {
      var n := |b| - 1;
      AdmittedConcat(a, ds, b[..n], es[..n], key, lo, hi);
      AdmittedAppend(a + b[..n], ds + es[..n], b[n], es[n], key, lo, hi);
      assert a + b[..n] + [b[n]] == a + b && ds + es[..n] + [es[n]] == ds + es;
    }
  }

  lemma AdmittedOne(r: Request, d: bool, key: string, lo: int, hi: int)
    ensures Admitted([r], [d], key, lo, hi) == if d && r.key == key && lo <= r.now < hi then 1 else 0
  {
    AdmittedAppend([], [], r, d, key, lo, hi);
    assert [] + [r] == [r] && [] + [d] == [d];
  }

  lemma AdmittedCons(r: Request, d: bool, rs: seq<Request>, ds: seq<bool>, key: string, lo: int, hi: int)
    requires |rs| == |ds|
    ensures Admitted([r] + rs, [d] + ds, key, lo, hi)
         == (if d && r.key == key && lo <= r.now < hi then 1 else 0) + Admitted(rs, ds, key, lo, hi)
  {
    AdmittedConcat([r], [d], rs, ds, key, lo, hi);
    AdmittedOne(r, d, key, lo, hi);
  }

  lemma {:induction false} LateRequests(rs: seq<Request>, ds: seq<bool>, key: string, lo: int, hi: int)
    requires |rs| == |ds| && ClockRuns(hi, rs)
    ensures Admitted(rs, ds, key, lo, hi) == 0
    decreases |rs|
  {
    if rs != [] {
      EarlierClock(hi, rs[0].now, rs[1..]);
      LateRequests(rs[1..], ds[1..], key, lo, hi);
      AdmittedCons(rs[0], ds[0], rs[1..], ds[1..], key, lo, hi);
      assert [rs[0]] + rs[1..] == rs && [ds[0]] + ds[1..] == ds;
    }
  }

  lemma EarlierClock(from: int, later: int, rs: seq<Request>)
    requires from <= later && ClockRuns(later, rs)
    ensures ClockRuns(from, rs)
  {
  }

  lemma {:induction false} PlainLength(c: Config, entries: map<string, Entry>, rs: seq<Request>)
    ensures |PlainDecisions(c, entries, rs)| == |rs|
    decreases |rs|
  {
    if rs != [] {
      PlainLength(c, Admit(c, entries, rs[0].key, rs[0].now).0, rs[1..]);
    }
  }

  /** The rest of a window admits no more than the rest of its quota. */
  lemma {:induction false} RestOfWindow(c: Config, entries: map<string, Entry>, key: string, e: Entry, now: int, rs: seq<Request>)
    requires key in entries && entries[key] == e && 0 <= e.count <= c.requests && e.reset > 0 && ClockRuns(now, rs)
    ensures |PlainDecisions(c, entries, rs)| == |rs|
    ensures e.count + Admitted(rs, PlainDecisions(c, entries, rs), key, e.reset - c.window, e.reset) <= c.requests
    decreases |rs|
  {
    PlainLength(c, entries, rs);
    if rs != [] {
      var r := rs[0];
      var (after, d) := Admit(c, entries, r.key, r.now);
      var ds := PlainDecisions(c, after, rs[1..]);
      PlainLength(c, after, rs[1..]);
      assert PlainDecisions(c, entries, rs) == [d] + ds && [r] + rs[1..] == rs;
      AdmittedCons(r, d, rs[1..], ds, key, e.reset - c.window, e.reset);
      if r.now >= e.reset {
        EarlierClock(e.reset, r.now, rs[1..]);
        LateRequests(rs[1..], ds, key, e.reset - c.window, e.reset);
      } else if r.key == key && d {
        RestOfWindow(c, after, key, e.(count := e.count + 1), r.now, rs[1..]);
      } else {
        RestOfWindow(c, after, key, e, r.now, rs[1..]);
      }
    }
  }

  lemma {:induction false} PlainConcat(c: Config, entries: map<string, Entry>, a: seq<Request>, b: seq<Request>)
    ensures PlainDecisions(c, entries, a + b) == PlainDecisions(c, entries, a) + PlainDecisions(c, PlainEntries(c, entries, a), b)
    ensures PlainEntries(c, entries, a + b) == PlainEntries(c, PlainEntries(c, entries, a), b)
    decreases |a|
  {
    if a == [] {
      assert a + b == b;
    } else {
      assert (a + b)[0] == a[0] && (a + b)[1..] == a[1..] + b;
      PlainConcat(c, Admit(c, entries, a[0].key, a[0].now).0, a[1..], b);
    }
  }

  lemma {:induction false} ClockSplits(from: int, rs: seq<Request>, k: nat)
    requires ClockRuns(from, rs) && k <= |rs|
    ensures ClockRuns(from, rs[..k])
    ensures ClockRuns(if k == 0 then from else rs[k - 1].now, rs[k..])
    decreases k
  {
    if k > 0 {
      ClockSplits(rs[0].now, rs[1..], k - 1);
      assert rs[..k][0] == rs[0] && rs[..k][1..] == rs[1..][..k - 1] && rs[k..] == rs[1..][k - 1..];
    }
  }

  /**
   Every window of the run, not only the latest: the one that is open after the first `k` requests admits,
   over the whole run, at most `requests` requests.
   */
  lemma EveryWindowIsBounded(c: Config, rs: seq<Request>, key: string, k: nat)
    requires c.Valid() && ClockRuns(0, rs) && k <= |rs| && key in PlainEntries(c, map[], rs[..k])
    ensures |Decisions(c, map[], rs)| == |rs|
    ensures var e := PlainEntries(c, map[], rs[..k])[key];
            Admitted(rs, Decisions(c, map[], rs), key, e.reset - c.window, e.reset) <= c.requests
  {
    var a, b := rs[..k], rs[k..];
    ClockSplits(0, rs, k);
    CleanupIsInvisible(c, map[], map[], 0, rs);
    assert a + b == rs;
    PlainLength(c, map[], rs);
    WindowGoesOn(c, a, b, key, if k == 0 then 0 else rs[k - 1].now);
  }

  lemma WindowGoesOn(c: Config, a: seq<Request>, b: seq<Request>, key: string, now: int)
    requires c.Valid() && ClockRuns(0, a) && ClockRuns(now, b) && key in PlainEntries(c, map[], a)
    ensures |PlainDecisions(c, map[], a + b)| == |a + b|
    ensures var e := PlainEntries(c, map[], a)[key];
            Admitted(a + b, PlainDecisions(c, map[], a + b), key, e.reset - c.window, e.reset) <= c.requests
  {
    var middle := PlainEntries(c, map[], a);
    var e := middle[key];
    EntryCounts(c, a, key);
    PlainConcat(c, map[], a, b);
    RestOfWindow(c, middle, key, e, now, b);
    AdmittedConcat(a, PlainDecisions(c, map[], a), b, PlainDecisions(c, middle, b), key, e.reset - c.window, e.reset);
  }

  lemma EntryCounts(c: Config, a: seq<Request>, key: string)
    requires c.Valid() && ClockRuns(0, a) && key in PlainEntries(c, map[], a)
    ensures |PlainDecisions(c, map[], a)| == |a|
    ensures var e := PlainEntries(c, map[], a)[key];
            && Admitted(a, PlainDecisions(c, map[], a), key, e.reset - c.window, e.reset) == e.count
            && 0 <= e.count <= c.requests && e.reset > 0
  {
    FreshRunKnows(c, a, key);
  }

  // ------------------------------------------------------------------ the bound is met

  function Same(key: string, now: int, n: nat): seq<Request> {
    if n == 0 then [] else [Request(key, now)] + Same(key, now, n - 1)
  }

  function Trues(n: nat): seq<bool> {
    if n == 0 then [] else [true] + Trues(n - 1)
  }

  lemma {:induction false} SameAreAdmitted(c: Config, entries: map<string, Entry>, key: string, now: int, n: nat)
    requires key in entries && entries[key].reset != 0 && now < entries[key].reset && entries[key].count + n <= c.requests
    ensures PlainDecisions(c, entries, Same(key, now, n)) == Trues(n)
    ensures PlainEntries(c, entries, Same(key, now, n)) == entries[key := entries[key].(count := entries[key].count + n)]
    decreases n
  {
    if n > 0 {
      var rs := Same(key, now, n);
      assert rs[0] == Request(key, now) && rs[1..] == Same(key, now, n - 1);
      SameAreAdmitted(c, Admit(c, entries, key, now).0, key, now, n - 1);
    }
  }

  lemma {:induction false} SameAreCounted(key: string, now: int, n: nat, lo: int, hi: int)
    requires lo <= now < hi
    ensures |Same(key, now, n)| == |Trues(n)| == n && Admitted(Same(key, now, n), Trues(n), key, lo, hi) == n
    decreases n
  {
    if n > 0 {
      SameAreCounted(key, now, n - 1, lo, hi);
      AdmittedCons(Request(key, now), true, Same(key, now, n - 1), Trues(n - 1), key, lo, hi);
    }
  }

  lemma ConsClock(from: int, r: Request, rs: seq<Request>)
    requires from <= r.now && ClockRuns(r.now, rs)
    ensures ClockRuns(from, [r] + rs)
  {
    assert ([r] + rs)[1..] == rs;
  }

  lemma {:induction false} SameClock(key: string, now: int, n: nat, rest: seq<Request>)
    requires ClockRuns(now, rest)
    ensures ClockRuns(now, Same(key, now, n) + rest)
    decreases n
  {
    if n == 0 {
      assert Same(key, now, n) + rest == rest;
    } else {
      SameClock(key, now, n - 1, rest);
      ConsClock(now, Request(key, now), Same(key, now, n - 1) + rest);
      assert [Request(key, now)] + (Same(key, now, n - 1) + rest) == [Request(key, now)] + Same(key, now, n - 1) + rest;
    }
  }

  /** One request opens a window, the others come at its end and all of the next ones right after. */
  function Burst(c: Config, key: string): seq<Request>
    requires c.Valid()
  {
    Same(key, 1, 1) + (Same(key, c.window, c.requests - 1) + Same(key, c.window + 1, c.requests))
  }

  lemma BurstIsAdmitted(c: Config, key: string)
    requires c.Valid() && c.window >= 2
    ensures PlainDecisions(c, map[], Burst(c, key)) == Trues(1) + (Trues(c.requests - 1) + Trues(c.requests))
  {
    FirstOfWindow(c, map[], key, 1, 1);
    PlainConcat(c, map[], Same(key, 1, 1), Same(key, c.window, c.requests - 1) + Same(key, c.window + 1, c.requests));
    RestOfBurst(c, key, map[][key := Entry(1, 1 + c.window)]);
  }

  lemma RestOfBurst(c: Config, key: string, entries: map<string, Entry>)
    requires c.Valid() && c.window >= 2 && key in entries && entries[key] == Entry(1, 1 + c.window)
    ensures PlainDecisions(c, entries, Same(key, c.window, c.requests - 1) + Same(key, c.window + 1, c.requests))
         == Trues(c.requests - 1) + Trues(c.requests)
  {
    var second, third := Same(key, c.window, c.requests - 1), Same(key, c.window + 1, c.requests);
    SameAreAdmitted(c, entries, key, c.window, c.requests - 1);
    PlainConcat(c, entries, second, third);
    FirstOfWindow(c, PlainEntries(c, entries, second), key, c.window + 1, c.requests);
  }

  lemma BurstIsInOrder(c: Config, key: string)
    requires c.Valid() && c.window >= 2
    ensures ClockRuns(0, Burst(c, key))
  {
    var second, third := Same(key, c.window, c.requests - 1), Same(key, c.window + 1, c.requests);
    SameClock(key, c.window + 1, c.requests, []);
    assert third + [] == third;
    EarlierClock(c.window, c.window + 1, third);
    SameClock(key, c.window, c.requests - 1, third);
    EarlierClock(1, c.window, second + third);
    SameClock(key, 1, 1, second + third);
    EarlierClock(0, 1, Burst(c, key));
  }

  lemma FirstOfWindow(c: Config, entries: map<string, Entry>, key: string, now: int, n: nat)
    requires c.Valid() && 1 <= n <= c.requests && now > 0
    requires key in entries ==> now >= entries[key].reset
    ensures PlainDecisions(c, entries, Same(key, now, n)) == Trues(n)
    ensures PlainEntries(c, entries, Same(key, now, n)) == entries[key := Entry(n, now + c.window)]
  {
    var rs := Same(key, now, n);
    assert rs[0] == Request(key, now) && rs[1..] == Same(key, now, n - 1);
    var after := Admit(c, entries, key, now).0;
    assert after == entries[key := Entry(1, now + c.window)];
    SameAreAdmitted(c, after, key, now, n - 1);
  }

  /** The bound is met for every limit and every window of at least two: 2 * requests - 1 admissions in one span. */
  lemma TheBoundIsMet(c: Config, key: string)
    requires c.Valid() && c.window >= 2
    ensures var rs := Burst(c, key);
            && ClockRuns(0, rs) && |Decisions(c, map[], rs)| == |rs|
            && Span(c, rs, Decisions(c, map[], rs), key, 2) == 2 * c.requests - 1
  {
    BurstIsInOrder(c, key);
    BurstIsAdmitted(c, key);
    CleanupIsInvisible(c, map[], map[], 0, Burst(c, key));
    PlainLength(c, map[], Burst(c, key));
    var lo, hi, n := 2, 2 + c.window, c.requests;
    SameAreCounted(key, c.window, n - 1, lo, hi);
    SameAreCounted(key, c.window + 1, n, lo, hi);
    AdmittedConcat(Same(key, c.window, n - 1), Trues(n - 1), Same(key, c.window + 1, n), Trues(n), key, lo, hi);
    AdmittedOne(Request(key, 1), true, key, lo, hi);
    assert Same(key, 1, 1) == [Request(key, 1)] && Trues(1) == [true];
    AdmittedConcat(Same(key, 1, 1), Trues(1), Same(key, c.window, n - 1) + Same(key, c.window + 1, n), Trues(n - 1) + Trues(n),
                   key, lo, hi);
  }

  // ------------------------------------------------------------------ which requests are admitted

  /** A window of one address: when it started, and how often the address has asked in it so far. */
  datatype Window = NoWindow | Window(start: int, asked: nat)

  /** The window in which the latest request of `key` fell: its first request opened it, and those in its span belong to it. */
  function WindowOf(c: Config, rs: seq<Request>, key: string): Window
    decreases |rs|
  {
    if rs == [] then NoWindow
    else
      var r, before := rs[|rs| - 1], WindowOf(c, rs[..|rs| - 1], key);
      if r.key != key then before
      else if before.NoWindow? || r.now >= before.start + c.window then Window(r.now, 1)
      else before.(asked := before.asked + 1)
  }

  /** The entry of an address counts the requests of its window up to the limit. */
  predicate Counts(c: Config, entries: map<string, Entry>, key: string, w: Window) {
    match w
    case NoWindow => key !in entries
    case Window(start, asked) =>
      && key in entries && start >= 0 && asked > 0
      && entries[key] == Entry(if asked < c.requests then asked else c.requests, start + c.window)
  }

  lemma OneMoreCounts(c: Config, entries: map<string, Entry>, rs: seq<Request>, r: Request, key: string)
    requires c.Valid() && 0 <= r.now && Counts(c, entries, key, WindowOf(c, rs, key))
    ensures Counts(c, Admit(c, entries, r.key, r.now).0, key, WindowOf(c, rs + [r], key))
    ensures r.key == key ==>
              && WindowOf(c, rs + [r], key).Window?
              && (Admit(c, entries, key, r.now).1 <==> WindowOf(c, rs + [r], key).asked <= c.requests)
  {
    assert (rs + [r])[..|rs|] == rs;
  }

  lemma {:induction false} RunCounts(c: Config, rs: seq<Request>, key: string)
    requires c.Valid() && ClockRuns(0, rs)
    ensures Counts(c, PlainEntries(c, map[], rs), key, WindowOf(c, rs, key))
    decreases |rs|
  {
    if rs != [] {
      var n := |rs| - 1;
      ClockSplits(0, rs, n);
      NotEarlier(0, rs, n);
      RunCounts(c, rs[..n], key);
      PlainConcat(c, map[], rs[..n], [rs[n]]);
      assert rs[..n] + [rs[n]] == rs;
      OneMoreCounts(c, PlainEntries(c, map[], rs[..n]), rs[..n], rs[n], key);
    }
  }

  lemma DecisionIs(c: Config, rs: seq<Request>, k: nat)
    requires k < |rs|
    ensures |PlainDecisions(c, map[], rs)| == |rs|
    ensures PlainDecisions(c, map[], rs)[k] == Admit(c, PlainEntries(c, map[], rs[..k]), rs[k].key, rs[k].now).1
  {
    PlainConcat(c, map[], rs[..k], rs[k..]);
    assert rs[..k] + rs[k..] == rs;
    PlainLength(c, map[], rs);
    PlainLength(c, map[], rs[..k]);
  }

  /**
   Over every run of a fresh limiter, cleanups included, a request is admitted exactly when it is among the first
   `requests` ones of its address in its window.
   */
  lemma AdmittedIff(c: Config, rs: seq<Request>, k: nat)
    requires c.Valid() && ClockRuns(0, rs) && k < |rs|
    ensures |Decisions(c, map[], rs)| == |rs| && WindowOf(c, rs[..k + 1], rs[k].key).Window?
    ensures Decisions(c, map[], rs)[k] <==> WindowOf(c, rs[..k + 1], rs[k].key).asked <= c.requests
  {
    CleanupIsInvisible(c, map[], map[], 0, rs);
    DecisionIs(c, rs, k);
    ClockSplits(0, rs, k);
    RunCounts(c, rs[..k], rs[k].key);
    assert rs[..k + 1] == rs[..k] + [rs[k]] && rs[k..][0] == rs[k];
    NotEarlier(0, rs, k);
    OneMoreCounts(c, PlainEntries(c, map[], rs[..k]), rs[..k], rs[k], rs[k].key);
  }

  lemma {:induction false} NotEarlier(from: int, rs: seq<Request>, k: nat)
    requires ClockRuns(from, rs) && k < |rs|
    ensures from <= rs[k].now
    decreases k
  {
    if k > 0 {
      NotEarlier(rs[0].now, rs[1..], k - 1);
    }
  }
}
