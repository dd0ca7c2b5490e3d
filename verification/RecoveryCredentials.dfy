/**
 `offlinePasswordCredential` of core/internal/server/password_recovery_key.go: the recovery key is read inside a section,
 the password is encrypted behind its unlock. When the key used is still the stored one.
 */
module RecoveryCredentials {
  import opened Wrappers
  import opened RecoveryKey
  import opened Strings
  import KeyedLocks

  // ------------------------------------------------------------------ public keys are known

  function StateOf(p: Program): Option<KeyState> {
    match p
    case Save(_, s) => Some(s)
    case Take(s) => Some(s)
    case Destroy(s, _) => Some(s)
    case Finished(Shown(s)) => Some(s)
    case _ => None
  }

  predicate Knows(publics: set<string>, s: Option<KeyState>) {
    s.Some? ==> s.value.publicKeyPEM in publics
  }

  ghost predicate PublicsInv(s: System) {
    && Knows(s.publics, s.setting)
    && forall t :: t in s.jobs && s.jobs[t].Job? ==> Knows(s.publics, StateOf(s.jobs[t].program))
  }

  lemma AdvanceKnows(setting: Option<KeyState>, p: Program, a: Answer, publics: set<string>)
    requires Knows(publics, setting) && Knows(publics, StateOf(p)) && !p.Finished?
    ensures var all := if p.Generate? && a.pair.Some? then publics + {a.pair.value.publicPEM} else publics;
            var (next, q) := Advance(setting, p, a);
            Knows(all, next) && Knows(all, StateOf(q))
  {
  }

  lemma StepKeepsPublics(s: System, step: Step)
    requires PublicsInv(s) && Enabled(s, step)
    ensures PublicsInv(Next(s, step)) && s.publics <= Next(s, step).publics
  {
    if step.CallStep? {
      AdvanceKnows(s.setting, s.jobs[step.t].program, step.a, s.publics);
    }
  }

  lemma {:induction false} PublicsHold(s: System, steps: seq<Step>)
    requires PublicsInv(s) && Legal(s, steps)
    ensures PublicsInv(Run(s, steps))
    decreases |steps|
  {
    if steps != [] {
      StepKeepsPublics(s, steps[0]);
      PublicsHold(Next(s, steps[0]), steps[1..]);
    }
  }

  // ------------------------------------------------------------------ after an unlock

  /** A generated key is stored. */
  predicate Replaces(s: System, step: Step)
    requires Enabled(s, step)
  {
    step.CallStep? && s.jobs[step.t].program.Save? && step.a.stored
  }

  /** Some step of the run stores a generated key. */
  predicate ReplacesKey(s: System, steps: seq<Step>)
    requires Legal(s, steps)
    decreases |steps|
  {
    steps != [] && (Replaces(s, steps[0]) || ReplacesKey(Next(s, steps[0]), steps[1..]))
  }

  predicate IsStored(setting: Option<KeyState>, publicKey: string) {
    setting.Some? && setting.value.publicKeyPEM == publicKey
  }

  /** Of a section inside the lock: a key about to be stored is newer than `base`; a destroying save keeps the public key. */
  predicate SavesNewer(p: Program, setting: Option<KeyState>, base: set<string>) {
    match p
    case Save(_, s) => s.publicKeyPEM !in base
    case Destroy(s, _) => IsStored(setting, s.publicKeyPEM)
    case _ => true
  }

  /** Since a time when `base` were the public keys and `key` was stored, it was replaced or it was not. */
  ghost predicate Tracks(s: System, base: set<string>, key: string, replaced: bool) {
    && base <= s.publics && key in base && s.setting.Some?
    && (if replaced then s.setting.value.publicKeyPEM !in base else s.setting.value.publicKeyPEM == key)
    && forall t :: t in s.jobs && s.jobs[t].Job? && Inside(s.locking, t) ==> SavesNewer(s.jobs[t].program, s.setting, base)
  }

  lemma LockStepTracks(s: System, step: Step, base: set<string>, key: string, replaced: bool)
    requires Inv(s) && Enabled(s, step) && Tracks(s, base, key, replaced) && step.LockStep?
    ensures Tracks(Next(s, step), base, key, replaced)
  {
    var n, l := Next(s, step), step.step;
    forall t | t in n.jobs && n.jobs[t].Job? && Inside(n.locking, t)
      ensures SavesNewer(n.jobs[t].program, n.setting, base)
    {
      LockStepKeepsProgram(s, step, t);
      assert JobInv(s, t);
    }
  }

  lemma LockStepKeepsProgram(s: System, step: Step, t: nat)
    requires Enabled(s, step) && step.LockStep? && t in Next(s, step).jobs && Inside(Next(s, step).locking, t)
    ensures t in s.jobs && s.jobs[t] == Next(s, step).jobs[t]
  {
  }

  lemma AdvanceTracks(setting: KeyState, p: Program, a: Answer, base: set<string>, publics: set<string>)
    requires SavesNewer(p, Some(setting), base) && base <= publics && !p.Finished? && (p.Take? ==> p.state == setting)
    requires p.Generate? && a.pair.Some? ==> a.pair.value.publicPEM !in publics
    ensures var (next, q) := Advance(Some(setting), p, a);
            && next.Some? && SavesNewer(q, next, base)
            && (p.Save? && a.stored ==> next.value.publicKeyPEM !in base)
            && (!(p.Save? && a.stored) ==> next.value.publicKeyPEM == setting.publicKeyPEM)
  {
  }

  lemma CallStepTracks(s: System, step: Step, base: set<string>, key: string, replaced: bool)
    requires Inv(s) && Enabled(s, step) && Tracks(s, base, key, replaced) && step.CallStep?
    ensures Tracks(Next(s, step), base, key, replaced || Replaces(s, step))
  {
    assert JobInv(s, step.t);
    AdvanceTracks(s.setting.value, s.jobs[step.t].program, step.a, base, s.publics);
    var n := Next(s, step);
    forall t | t in n.jobs && n.jobs[t].Job? && Inside(n.locking, t)
      ensures SavesNewer(n.jobs[t].program, n.setting, base)
    {
      if t != step.t {
        OtherJobIsOutside(s, t, step.t);
      }
    }
  }

  lemma {:induction false} RunTracks(s: System, steps: seq<Step>, base: set<string>, key: string, replaced: bool)
    requires Inv(s) && Legal(s, steps) && Tracks(s, base, key, replaced)
    ensures Tracks(Run(s, steps), base, key, replaced || ReplacesKey(s, steps))
    decreases |steps|
  {
    if steps != [] {
      var step := steps[0];
      if step.LockStep? {
        LockStepTracks(s, step, base, key, replaced);
      } else if step.CallStep? {
        CallStepTracks(s, step, base, key, replaced);
      }
      StepKeepsInv(s, step);
      RunTracks(Next(s, step), steps[1..], base, key, replaced || Replaces(s, step));
    }
  }

  /** Right after the unlock nobody is inside, and the key returned is the stored one. */
  lemma UnlockTracks(s: System, step: Step, t: nat)
    requires Inv(s) && PublicsInv(s) && Enabled(s, step) && Releases(step, t) && Returns(s, t)
    ensures var n := Next(s, step);
            && t in n.waiting && t !in n.jobs && n.setting == Some(n.waiting[t])
            && Tracks(n, n.publics, n.waiting[t].publicKeyPEM, false)
  {
    var n := Next(s, step);
    assert JobInv(s, t);
    forall u | u in n.jobs && n.jobs[u].Job?
      ensures !Inside(n.locking, u)
    {
      OtherJobIsOutside(s, u, t);
    }
  }

  predicate Calls(step: Step, t: nat) {
    step.LockStep? && step.step.Call? && step.step.t == t
  }

  /** A thread that does not lock again keeps the state it came out with until it encrypts. */
  lemma {:induction false} KeepsItsState(s: System, steps: seq<Step>, t: nat, state: KeyState)
    requires Legal(s, steps) && t !in s.jobs && (t in s.waiting ==> s.waiting[t] == state)
    requires forall i :: 0 <= i < |steps| ==> !Calls(steps[i], t)
    ensures t in Run(s, steps).waiting ==> Run(s, steps).waiting[t] == state
    decreases |steps|
  {
    if steps != [] {
      KeepsItsState(Next(s, steps[0]), steps[1..], t, state);
    }
  }

  /**
   In every interleaving, a password is encrypted under the key stored at that time if and only if no generated key was
   stored since the unlock.
   */
  lemma EncryptedUnderStoredKeyIff(initial: Option<KeyState>, before: seq<Step>, unlock: Step, after: seq<Step>, t: nat)
    requires Legal(Start(initial), before)
    requires var s := Run(Start(initial), before); Enabled(s, unlock) && Releases(unlock, t) && Returns(s, t)
    requires var n := Next(Run(Start(initial), before), unlock); Legal(n, after) && Enabled(Run(n, after), Encrypt(t))
    requires forall i :: 0 <= i < |after| ==> !Calls(after[i], t)
    ensures var n := Next(Run(Start(initial), before), unlock);
            var end := Next(Run(n, after), Encrypt(t));
            && |end.used| > 0 && end.used[|end.used| - 1] == n.waiting[t].publicKeyPEM
            && (IsStored(end.setting, end.used[|end.used| - 1]) <==> !ReplacesKey(n, after))
  {
    var s := Run(Start(initial), before);
    InvHolds(Start(initial), before);
    PublicsHold(Start(initial), before);
    UnlockTracks(s, unlock, t);
    StepKeepsInv(s, unlock);
    var n := Next(s, unlock);
    RunTracks(n, after, n.publics, n.waiting[t].publicKeyPEM, false);
    KeepsItsState(n, after, t, n.waiting[t]);
  }

  // ------------------------------------------------------------------ lost keys

  predicate Forgets(p: Program, key: string) {
    p.Save? ==> TrimSpace(p.state.privateKeyPEM) != key
  }

  /** A private key that nobody was given and nobody can be given. */
  ghost predicate Lost(s: System, key: string) {
    && key != "" && key in s.made && key !in s.given && KeyIn(s.setting) != key
    && forall t :: t in s.jobs && s.jobs[t].Job? && Inside(s.locking, t) ==> Forgets(s.jobs[t].program, key)
  }

  lemma CallForgets(s: System, t: nat, a: Answer, key: string)
    requires t in s.jobs && s.jobs[t].Job? && ProgramInv(s.jobs[t].program, s.setting, s.made, s.given)
    requires !s.jobs[t].program.Finished? && AnswerFits(s.jobs[t].program, a, s.made, s.publics)
    requires key != "" && key in s.made && key !in s.given && KeyIn(s.setting) != key && Forgets(s.jobs[t].program, key)
    ensures var n := NextCall(s, t, a);
            key in n.made && key !in n.given && KeyIn(n.setting) != key && Forgets(n.jobs[t].program, key)
  {
  }

  lemma StepKeepsLost(s: System, step: Step, key: string)
    requires Inv(s) && Enabled(s, step) && Lost(s, key)
    ensures Lost(Next(s, step), key)
  {
    var n := Next(s, step);
    if step.CallStep? {
      assert JobInv(s, step.t);
      CallForgets(s, step.t, step.a, key);
    }
    forall t | t in n.jobs && n.jobs[t].Job? && Inside(n.locking, t)
      ensures Forgets(n.jobs[t].program, key)
    {
      if step.LockStep? {
        LockStepKeepsProgram(s, step, t);
        assert JobInv(s, t);
      }
    }
  }

  /** A lost key is never stored or given again, in any interleaving. */
  lemma {:induction false} LostForever(s: System, steps: seq<Step>, key: string)
    requires Inv(s) && Legal(s, steps) && Lost(s, key)
    ensures Lost(Run(s, steps), key)
    decreases |steps|
  {
    if steps != [] {
      StepKeepsInv(s, steps[0]);
      StepKeepsLost(s, steps[0], key);
      LostForever(Next(s, steps[0]), steps[1..], key);
    }
  }

  // ------------------------------------------------------------------ a reset in between

  lemma {:induction false} RunsOn(s: System, a: seq<Step>, b: seq<Step>)
    requires Legal(s, a) && Legal(Run(s, a), b)
    ensures Legal(s, a + b) && Run(s, a + b) == Run(Run(s, a), b)
    decreases |a|
  {
    if a == [] {
      assert a + b == b;
    } else {
      RunsOn(Next(s, a[0]), a[1..], b);
      assert (a + b)[1..] == a[1..] + b;
    }
  }

  lemma OneStep(s: System, step: Step)
    requires Enabled(s, step)
    ensures Legal(s, [step]) && Run(s, [step]) == Next(s, step)
  {
    var n := Next(s, step);
    assert [step][1..] == [];
    assert Legal(n, []) && Run(n, []) == n;
  }

  lemma OneMore(s: System, a: seq<Step>, step: Step)
    requires Legal(s, a) && Enabled(Run(s, a), step)
    ensures Legal(s, a + [step]) && Run(s, a + [step]) == Next(Run(s, a), step)
  {
    OneStep(Run(s, a), step);
    RunsOn(s, a, [step]);
  }

  const TABLE := KeyedLocks.Table(map[LOCK_KEY := 0], [false])
  const FREE := KeyedLocks.Locking(TABLE, map[])

  function Held(t: nat): KeyedLocks.Locking {
    KeyedLocks.Locking(KeyedLocks.Table(map[LOCK_KEY := 0], [true]), map[t := KeyedLocks.Holds(LOCK_KEY, 0)])
  }

  function Entering(t: nat, op: Op): seq<Step> {
    var job := Job(op, Entry(op));
    [LockStep(KeyedLocks.Call(t, LOCK_KEY), job), LockStep(KeyedLocks.Look(t), job), LockStep(KeyedLocks.Acquire(t), job)]
  }

  function Entered(s: System, t: nat, op: Op): System {
    s.(locking := Held(t), jobs := map[t := Job(op, Entry(op))])
  }

  /** A thread enters its section while no other has begun one. */
  lemma Enters(s: System, t: nat, op: Op)
    requires (s.locking == KeyedLocks.START || s.locking == FREE) && s.jobs == map[] && t !in s.waiting
    ensures Legal(s, Entering(t, op)) && Run(s, Entering(t, op)) == Entered(s, t, op)
  {
    var job := Job(op, Entry(op));
    var call, look := LockStep(KeyedLocks.Call(t, LOCK_KEY), job), LockStep(KeyedLocks.Look(t), job);
    var acquire := LockStep(KeyedLocks.Acquire(t), job);
    var s1 := s.(locking := s.locking.(places := map[t := KeyedLocks.Wants(LOCK_KEY)]), jobs := map[t := job]);
    assert Enabled(s, call) && Next(s, call) == s1;
    var s2 := s1.(locking := KeyedLocks.Locking(TABLE, map[t := KeyedLocks.Waits(LOCK_KEY, 0)]));
    assert Enabled(s1, look) && Next(s1, look) == s2;
    ThreeSteps(s, call, look, acquire);
  }

  const SUCCESS := Answer(false, true, None, "")

  /** A thread comes out of an ensure section with the stored key. */
  lemma EnsureRuns(stale: KeyState, t: nat) returns (steps: seq<Step>)
    requires Usable(stale)
    ensures var s := Start(Some(stale));
            Legal(s, steps) && Run(s, steps) == s.(locking := FREE, waiting := map[t := stale])
  {
    var s := Start(Some(stale));
    Enters(s, t, Ensure);
    var s1 := Entered(s, t, Ensure);
    var load, unlock := CallStep(t, SUCCESS), LockStep(KeyedLocks.Release(t), Elsewhere);
    OneMore(s, Entering(t, Ensure), load);
    var s2 := Next(s1, load);
    assert s2 == s1.(jobs := map[t := Job(Ensure, Finished(Shown(stale)))]);
    OneMore(s, Entering(t, Ensure) + [load], unlock);
    steps := Entering(t, Ensure) + [load] + [unlock];
    assert Next(s2, unlock) == s.(locking := FREE, waiting := map[t := stale]);
  }

  /** The three calls of a factory reset. */
  function Resetting(t: nat, pair: KeyPair, now: string): seq<Step> {
    [CallStep(t, SUCCESS), CallStep(t, Answer(false, true, Some(pair), now)), CallStep(t, SUCCESS)]
  }

  /** The lock is held by a reset that stands at `p`. */
  predicate InReset(s: System, t: nat, p: Program) {
    s.locking == Held(t) && s.jobs == map[t := Job(Reset, p)]
  }

  lemma WipeCall(s: System, t: nat)
    requires InReset(s, t, Wipe)
    ensures var step := CallStep(t, SUCCESS);
            Enabled(s, step) && Next(s, step) == s.(jobs := map[t := Job(Reset, Generate(Reset))])
  {
  }

  lemma GenerateCall(s: System, t: nat, pair: KeyPair, now: string)
    requires InReset(s, t, Generate(Reset))
    requires TrimSpace(pair.privatePEM) != "" && TrimSpace(pair.privatePEM) !in s.made && pair.publicPEM !in s.publics
    ensures var step := CallStep(t, Answer(false, true, Some(pair), now));
            && Enabled(s, step)
            && Next(s, step) == s.(jobs := map[t := Job(Reset, Save(Reset, NewState(pair, now)))],
                                   made := s.made + {TrimSpace(pair.privatePEM)}, publics := s.publics + {pair.publicPEM})
  {
  }

  lemma SaveCall(s: System, t: nat, state: KeyState)
    requires InReset(s, t, Save(Reset, state))
    ensures var step := CallStep(t, SUCCESS);
            && Enabled(s, step)
            && Next(s, step) == s.(jobs := map[t := Job(Reset, Finished(Shown(state)))], setting := Some(state))
  {
  }

  lemma ThreeSteps(s: System, a: Step, b: Step, c: Step)
    requires Enabled(s, a) && Enabled(Next(s, a), b) && Enabled(Next(Next(s, a), b), c)
    ensures Legal(s, [a, b, c]) && Run(s, [a, b, c]) == Next(Next(Next(s, a), b), c)
  {
    OneStep(s, a);
    OneMore(s, [a], b);
    OneMore(s, [a] + [b], c);
    assert [a] + [b] + [c] == [a, b, c];
  }

  lemma ResetCalls(s: System, t: nat, pair: KeyPair, now: string)
    requires InReset(s, t, Wipe)
    requires TrimSpace(pair.privatePEM) != "" && TrimSpace(pair.privatePEM) !in s.made && pair.publicPEM !in s.publics
    ensures Legal(s, Resetting(t, pair, now))
    ensures Run(s, Resetting(t, pair, now))
         == s.(jobs := map[t := Job(Reset, Finished(Shown(NewState(pair, now))))], setting := Some(NewState(pair, now)),
               made := s.made + {TrimSpace(pair.privatePEM)}, publics := s.publics + {pair.publicPEM})
  {
    var generated := Answer(false, true, Some(pair), now);
    WipeCall(s, t);
    var s1 := Next(s, CallStep(t, SUCCESS));
    GenerateCall(s1, t, pair, now);
    SaveCall(Next(s1, CallStep(t, generated)), t, NewState(pair, now));
    ThreeSteps(s, CallStep(t, SUCCESS), CallStep(t, generated), CallStep(t, SUCCESS));
  }

  lemma ResetRuns(s: System, t: nat, pair: KeyPair, now: string) returns (steps: seq<Step>)
    requires s.locking == FREE && s.jobs == map[] && t !in s.waiting
    requires TrimSpace(pair.privatePEM) != "" && TrimSpace(pair.privatePEM) !in s.made && pair.publicPEM !in s.publics
    ensures Legal(s, steps)
    ensures var n := Run(s, steps);
            n.setting == Some(NewState(pair, now)) && n.waiting == s.waiting && n.used == s.used
            && n.given == s.given && n.jobs == map[] && s.made <= n.made
  {
    Enters(s, t, Reset);
    var s1 := Entered(s, t, Reset);
    ResetCalls(s1, t, pair, now);
    RunsOn(s, Entering(t, Reset), Resetting(t, pair, now));
    var calls := Entering(t, Reset) + Resetting(t, pair, now);
    OneMore(s, calls, LockStep(KeyedLocks.Release(t), Elsewhere));
    steps := calls + [LockStep(KeyedLocks.Release(t), Elsewhere)];
  }

  /**
   A factory reset between the unlock and the encryption: the credential is encrypted under a key that is no longer stored,
   and whose private key is lost unless it was downloaded before.
   */
  lemma ReplacedKeyIsUsed(stale: KeyState, pair: KeyPair, now: string) returns (steps: seq<Step>)
    requires Usable(stale) && pair.publicPEM != stale.publicKeyPEM
    requires TrimSpace(pair.privatePEM) != "" && TrimSpace(pair.privatePEM) != TrimSpace(stale.privateKeyPEM)
    ensures Legal(Start(Some(stale)), steps)
    ensures var n := Run(Start(Some(stale)), steps);
            && n.used == [stale.publicKeyPEM] && n.setting == Some(NewState(pair, now))
            && (TrimSpace(stale.privateKeyPEM) != "" ==> Lost(n, TrimSpace(stale.privateKeyPEM)))
  {
    var s := Start(Some(stale));
    var ensured := EnsureRuns(stale, 1);
    var s1 := Run(s, ensured);
    var reset := ResetRuns(s1, 2, pair, now);
    RunsOn(s, ensured, reset);
    OneMore(s, ensured + reset, Encrypt(1));
    steps := ensured + reset + [Encrypt(1)];
  }
}
