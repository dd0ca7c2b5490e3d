/**
 The keyed mutex of core/internal/server/server.go: one mutex per string key, made on first use and never
 dropped. Mutexes and threads are numbered.
 */
module KeyedLocks {

  datatype Table = Table(locks: map<string, nat>, locked: seq<bool>)

  /** The critical section of `lock` under `mu`: the key's mutex, made when there is none. */
  function Find(t: Table, key: string): (Table, nat) {
    if key in t.locks then (t, t.locks[key])
    else (Table(t.locks[key := |t.locked|], t.locked + [false]), |t.locked|)
  }

  class KeyedMutex {
    var locks: map<string, nat>
    var locked: seq<bool>

    constructor ()
      ensures State() == Table(map[], [])
    {
      locks, locked := map[], [];
    }

    function State(): Table
      reads this
    {
      Table(locks, locked)
    }

    method find(key: string) returns (m: nat)
      modifies this
      ensures (State(), m) == Find(old(State()), key)
    {
      if key !in locks {
        locks, locked := locks[key := |locked|], locked + [false];
      }
      m := locks[key];
    }

    /** `m.Lock()` returns when the mutex is free. */
    method acquire(m: nat)
      requires m < |locked| && !locked[m]
      modifies this`locked
      ensures locked == old(locked)[m := true]
    {
      locked := locked[m := true];
    }

    /** `m.Unlock()` stops the program when the mutex is not locked. */
    method release(m: nat)
      requires m < |locked| && locked[m]
      modifies this`locked
      ensures locked == old(locked)[m := false]
    {
      locked := locked[m := false];
    }
  }

  // ------------------------------------------------------------------ all interleavings

  /** A thread inside `lock` before its look-up, waiting for its mutex, or holding it. */
  datatype Place = Wants(key: string) | Waits(key: string, m: nat) | Holds(key: string, m: nat)

  datatype Locking = Locking(table: Table, places: map<nat, Place>)

  datatype Step = Call(t: nat, key: string) | Look(t: nat) | Acquire(t: nat) | Release(t: nat)

  const START := Locking(Table(map[], []), map[])

  predicate Enabled(s: Locking, step: Step) {
    match step
    case Call(t, _) => t !in s.places
    case Look(t) => t in s.places && s.places[t].Wants?
    case Acquire(t) =>
      t in s.places && s.places[t].Waits? && s.places[t].m < |s.table.locked| && !s.table.locked[s.places[t].m]
    case Release(t) => t in s.places && s.places[t].Holds?
  }

  /** Unlocking a free mutex is fatal in Go. */
  predicate Fatal(s: Locking, step: Step) {
    step.Release? && Enabled(s, step)
    && (s.places[step.t].m >= |s.table.locked| || !s.table.locked[s.places[step.t].m])
  }

  function SetLocked(t: Table, m: nat, value: bool): Table {
    if m < |t.locked| then t.(locked := t.locked[m := value]) else t
  }

  function Next(s: Locking, step: Step): Locking
    requires Enabled(s, step)
  {
    match step
    case Call(t, key) => s.(places := s.places[t := Wants(key)])
    case Look(t) =>
      var key := s.places[t].key;
      var (table, m) := Find(s.table, key);
      Locking(table, s.places[t := Waits(key, m)])
    case Acquire(t) =>
      var p := s.places[t];
      Locking(SetLocked(s.table, p.m, true), s.places[t := Holds(p.key, p.m)])
    case Release(t) => Locking(SetLocked(s.table, s.places[t].m, false), s.places - {t})
  }

  predicate Bound(s: Locking, t: nat)
    requires t in s.places
  {
    var p := s.places[t];
    p.Wants? || (p.key in s.table.locks && s.table.locks[p.key] == p.m)
  }

  predicate Owns(s: Locking, t: nat, m: nat) {
    t in s.places && s.places[t].Holds? && s.places[t].m == m
  }

  ghost predicate TableInv(t: Table) {
    && (forall k :: k in t.locks ==> t.locks[k] < |t.locked|)
    && (forall k, j :: k in t.locks && j in t.locks && t.locks[k] == t.locks[j] ==> k == j)
  }

  ghost predicate Inv(s: Locking) {
    && TableInv(s.table)
    && (forall t :: t in s.places ==> Bound(s, t))
    && (forall t, u, m :: Owns(s, t, m) && Owns(s, u, m) ==> t == u)
    && (forall m: nat :: m < |s.table.locked| ==> (s.table.locked[m] <==> exists t :: Owns(s, t, m)))
  }

  lemma FindKeepsTable(t: Table, key: string)
    requires TableInv(t)
    ensures var (u, m) := Find(t, key);
            TableInv(u) && key in u.locks && u.locks[key] == m && t.locked <= u.locked
            && (forall k :: k in t.locks ==> k in u.locks && u.locks[k] == t.locks[k])
            && (forall i :: |t.locked| <= i < |u.locked| ==> !u.locked[i])
  {
  }

  lemma CallKeepsInv(s: Locking, step: Step)
    requires Inv(s) && Enabled(s, step) && step.Call?
    ensures Inv(Next(s, step))
  {
    var n := Next(s, step);
    assert forall t, m :: Owns(n, t, m) <==> Owns(s, t, m);
  }

  lemma LookKeepsInv(s: Locking, step: Step)
    requires Inv(s) && Enabled(s, step) && step.Look?
    ensures Inv(Next(s, step))
  {
    var n := Next(s, step);
    FindKeepsTable(s.table, s.places[step.t].key);
    assert forall t, m :: Owns(n, t, m) <==> Owns(s, t, m);
    forall t | t in n.places
      ensures Bound(n, t)
    {
      assert t != step.t ==> Bound(s, t);
    }
    forall t, m: nat | Owns(s, t, m)
      ensures m < |s.table.locked|
    {
      assert Bound(s, t);
    }
  }

  lemma AcquireKeepsInv(s: Locking, step: Step)
    requires Inv(s) && Enabled(s, step) && step.Acquire?
    ensures Inv(Next(s, step))
  {
    var n, own := Next(s, step), s.places[step.t].m;
    assert forall t, m :: Owns(n, t, m) <==> Owns(s, t, m) || (t == step.t && m == own);
    assert Owns(n, step.t, own);
    forall m: nat | m < |n.table.locked|
      ensures n.table.locked[m] <==> exists t :: Owns(n, t, m)
    {
      assert m != own ==> n.table.locked[m] == s.table.locked[m];
      if m != own && s.table.locked[m] {
        var t :| Owns(s, t, m);
        assert Owns(n, t, m);
      }
    }
    forall t | t in n.places
      ensures Bound(n, t)
    {
      assert Bound(s, t);
    }
  }

  lemma ReleaseKeepsInv(s: Locking, step: Step)
    requires Inv(s) && Enabled(s, step) && step.Release?
    ensures Inv(Next(s, step)) && !Fatal(s, step)
  {
    var n, own := Next(s, step), s.places[step.t].m;
    assert Owns(s, step.t, own) && Bound(s, step.t);
    assert forall t, m :: Owns(n, t, m) <==> Owns(s, t, m) && t != step.t;
    forall t | t in n.places
      ensures Bound(n, t)
    {
      assert Bound(s, t);
    }
  }

  /** No step breaks the invariant, and no unlock is fatal. */
  lemma StepKeepsInv(s: Locking, step: Step)
    requires Inv(s) && Enabled(s, step)
    ensures Inv(Next(s, step)) && !Fatal(s, step)
  {
    match step {
      case Call(_, _) => CallKeepsInv(s, step);
      case Look(_) => LookKeepsInv(s, step);
      case Acquire(_) => AcquireKeepsInv(s, step);
      case Release(_) => ReleaseKeepsInv(s, step);
    }
  }

  predicate Legal(s: Locking, steps: seq<Step>)
    decreases |steps|
  {
    steps != [] ==> Enabled(s, steps[0]) && Legal(Next(s, steps[0]), steps[1..])
  }

  function Run(s: Locking, steps: seq<Step>): Locking
    requires Legal(s, steps)
    decreases |steps|
  {
    if steps == [] then s else Run(Next(s, steps[0]), steps[1..])
  }

  lemma {:induction false} InvHolds(s: Locking, steps: seq<Step>)
    requires Inv(s) && Legal(s, steps)
    ensures Inv(Run(s, steps))
    decreases |steps|
  {
    if steps != [] {
      StepKeepsInv(s, steps[0]);
      InvHolds(Next(s, steps[0]), steps[1..]);
    }
  }

  /** Sections under one key never overlap, sections under different keys hold different mutexes. */
  lemma SectionsNeverOverlap(steps: seq<Step>, t: nat, u: nat)
    requires Legal(START, steps)
    requires var p := Run(START, steps).places; t in p && u in p && p[t].Holds? && p[u].Holds? && t != u
    ensures var p := Run(START, steps).places; p[t].key != p[u].key && p[t].m != p[u].m
  {
    InvHolds(START, steps);
    var s := Run(START, steps);
    if s.places[t].key == s.places[u].key {
      AtMostOneInside(s, t, u);
    }
    assert Owns(s, t, s.places[t].m) && Owns(s, u, s.places[u].m);
  }

  lemma AtMostOneInside(s: Locking, t: nat, u: nat)
    requires Inv(s) && t in s.places && u in s.places && s.places[t].Holds? && s.places[u].Holds?
    requires s.places[t].key == s.places[u].key
    ensures t == u
  {
    assert Bound(s, t) && Bound(s, u);
    assert Owns(s, t, s.places[t].m) && Owns(s, u, s.places[u].m);
  }

  /** A thread waits only for a thread inside a section of the same key. */
  lemma OnlyTheSameKeyBlocks(steps: seq<Step>, t: nat)
    requires Legal(START, steps)
    requires var s := Run(START, steps); t in s.places && s.places[t].Waits? && !Enabled(s, Acquire(t))
    ensures var s := Run(START, steps);
            exists u :: u in s.places && s.places[u].Holds? && s.places[u].key == s.places[t].key
  {
    InvHolds(START, steps);
    var s := Run(START, steps);
    var m := s.places[t].m;
    assert Bound(s, t);
    var u :| Owns(s, u, m);
    assert Bound(s, u);
  }
}
