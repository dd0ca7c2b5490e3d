/**
 The one-shot password recovery key of core/internal/server/password_recovery_key.go: one stored setting,
 read and rewritten inside sections of one key of the keyed mutex. Load, generate, save and wipe may fail.
 */
module RecoveryKey {
  import opened Wrappers
  import opened Strings
  import opened KeyedLocks

  const LOCK_KEY := "system:password_recovery_key"

  datatype KeyState = KeyState(algorithm: string, publicKeyPEM: string, privateKeyPEM: string, fingerprint: string,
                               sizeBits: nat, createdAt: string, downloadedAt: string)

  datatype KeyPair = KeyPair(algorithm: string, publicPEM: string, privatePEM: string, fingerprint: string, sizeBits: nat)

  /** How the store and the generator answer one call. A failing save may have stored its value. */
  datatype Answer = Answer(fails: bool, stored: bool, pair: Option<KeyPair>, now: string)

  datatype Op = Ensure | Download | Reset

  datatype Result = Failed | Destroyed | Shown(state: KeyState) | Given(privateKey: string, fingerprint: string)

  /** The next call a section makes. */
  datatype Program =
    | Wipe
    | Load(op: Op)
    | Generate(op: Op)
    | Save(op: Op, state: KeyState)
    | Take(state: KeyState)
    | Destroy(state: KeyState, privateKey: string)
    | Finished(result: Result)

  function Entry(op: Op): Program {
    if op.Reset? then Wipe else Load(op)
  }

  function NewState(pair: KeyPair, now: string): KeyState {
    KeyState(pair.algorithm, pair.publicPEM, pair.privatePEM, pair.fingerprint, pair.sizeBits, now, "")
  }

  predicate Usable(s: KeyState) {
    TrimSpace(s.publicKeyPEM) != "" && TrimSpace(s.fingerprint) != ""
  }

  /** What a section does with the state it loaded or made. */
  function WithState(op: Op, s: KeyState): Program {
    if op.Download? then Take(s) else Finished(Shown(s))
  }

  function Stored(setting: Option<KeyState>, s: KeyState, a: Answer): Option<KeyState> {
    if a.stored then Some(s) else setting
  }

  /** One call of a section. */
  function Advance(setting: Option<KeyState>, p: Program, a: Answer): (Option<KeyState>, Program) {
    match p
    case Wipe => (setting, if a.fails then Finished(Failed) else Generate(Reset))
    case Load(op) =>
      if a.fails then (setting, Finished(Failed))
      else if setting.Some? && Usable(setting.value) then (setting, WithState(op, setting.value))
      else (setting, Generate(op))
    case Generate(op) =>
      if a.pair.None? then (setting, Finished(Failed))
      else (setting, Save(op, NewState(a.pair.value, a.now)))
    case Save(op, s) => (Stored(setting, s, a), if a.fails then Finished(Failed) else WithState(op, s))
    case Take(s) =>
      var key := TrimSpace(s.privateKeyPEM);
      (setting, if key == "" then Finished(Destroyed) else Destroy(s.(privateKeyPEM := "", downloadedAt := a.now), key))
    case Destroy(s, key) => (Stored(setting, s, a), if a.fails then Finished(Failed) else Finished(Given(key, s.fingerprint)))
    case Finished(_) => (setting, p)
  }

  // ------------------------------------------------------------------ the handlers

  /** The answers one section gets, by call. */
  datatype Answers = Answers(wipe: Answer, load: Answer, generate: Answer, save: Answer, clock: Answer, destroy: Answer)

  function AnswerTo(p: Program, a: Answers): Answer {
    match p
    case Wipe => a.wipe
    case Load(_) => a.load
    case Generate(_) => a.generate
    case Save(_, _) => a.save
    case Take(_) => a.clock
    case _ => a.destroy
  }

  function CallsLeft(p: Program): nat {
    match p
    case Wipe => 6
    case Load(_) => 5
    case Generate(_) => 4
    case Save(_, _) => 3
    case Take(_) => 2
    case Destroy(_, _) => 1
    case Finished(_) => 0
  }

  /** A section from `p` to its end when nobody else writes the setting. */
  function Complete(setting: Option<KeyState>, p: Program, a: Answers): (Option<KeyState>, Result)
    decreases CallsLeft(p)
  {
    if p.Finished? then (setting, p.result)
    else
      var (next, q) := Advance(setting, p, AnswerTo(p, a));
      Complete(next, q, a)
  }

  /** The part of `Server` the handlers touch while they hold the lock. */
  class KeyServer {
    var setting: Option<KeyState>

    constructor (initial: Option<KeyState>)
      ensures setting == initial
    {
      setting := initial;
    }

    method savePasswordRecoveryKey(state: KeyState, a: Answer) returns (failed: bool)
      modifies this
      ensures setting == Stored(old(setting), state, a) && failed == a.fails
    {
      if a.stored {
        setting := Some(state);
      }
      failed := a.fails;
    }

    /** Ends with a state, or with `None` after an error. */
    method ensurePasswordRecoveryKeyLocked(a: Answers, ghost op: Op) returns (state: Option<KeyState>)
      requires !op.Reset?
      modifies this
      ensures state.None? ==> Complete(old(setting), Load(op), a) == (setting, Failed)
      ensures state.Some? ==> Complete(old(setting), Load(op), a) == Complete(setting, WithState(op, state.value), a)
    {
      if a.load.fails {
        return None;
      }
      if setting.Some? && Usable(setting.value) {
        return setting;
      }
      if a.generate.pair.None? {
        return None;
      }
      var made := NewState(a.generate.pair.value, a.generate.now);
      var failed := savePasswordRecoveryKey(made, a.save);
      state := if failed then None else Some(made);
    }

    method ensurePasswordRecoveryKey(a: Answers) returns (r: Result)
      modifies this
      ensures (setting, r) == Complete(old(setting), Entry(Ensure), a)
    {
      var found := ensurePasswordRecoveryKeyLocked(a, Ensure);
      r := if found.None? then Failed else Shown(found.value);
    }

    method handleAdminDownloadPasswordRecoveryPrivateKey(a: Answers) returns (r: Result)
      modifies this
      ensures (setting, r) == Complete(old(setting), Entry(Download), a)
    {
      var found := ensurePasswordRecoveryKeyLocked(a, Download);
      if found.None? {
        return Failed;
      }
      var state := found.value;
      var privateKey := TrimSpace(state.privateKeyPEM);
      if privateKey == "" {
        assert Complete(setting, Take(state), a) == (setting, Destroyed);
        return Destroyed;
      }
      state := state.(privateKeyPEM := "", downloadedAt := a.clock.now);
      assert Complete(setting, Take(found.value), a) == Complete(setting, Destroy(state, privateKey), a);
      ghost var before := setting;
      var failed := savePasswordRecoveryKey(state, a.destroy);
      r := if failed then Failed else Given(privateKey, state.fingerprint);
      assert Complete(before, Destroy(state, privateKey), a) == (setting, r);
    }

    method handleAdminSystemFactoryReset(a: Answers) returns (r: Result)
      modifies this
      ensures (setting, r) == Complete(old(setting), Entry(Reset), a)
    {
      if a.wipe.fails {
        return Failed;
      }
      if a.generate.pair.None? {
        return Failed;
      }
      var state := NewState(a.generate.pair.value, a.generate.now);
      var failed := savePasswordRecoveryKey(state, a.save);
      r := if failed then Failed else Shown(state);
    }
  }

  // ------------------------------------------------------------------ all interleavings

  /** A thread of the server: one of the three sections, or a section of another caller of the keyed mutex. */
  datatype Job = Job(op: Op, program: Program) | Elsewhere

  /**
   `made` has every private key that was stored at the start or generated since, `publics` the public keys; `given` has
   the keys of the successful downloads, in order. `waiting` has the states with which threads came out of an ensure
   section and did not encrypt yet, `used` the public keys under which credentials were encrypted, in order.
   */
  datatype System = System(locking: Locking, jobs: map<nat, Job>, setting: Option<KeyState>, made: set<string>, given: seq<string>,
                           publics: set<string>, waiting: map<nat, KeyState>, used: seq<string>)

  /** Encryption takes place behind the unlock. */
  datatype Step = LockStep(step: KeyedLocks.Step, job: Job) | CallStep(t: nat, a: Answer) | Encrypt(t: nat)

  function Start(initial: Option<KeyState>): System {
    System(KeyedLocks.START, map[], initial, {KeyIn(initial)}, [], PublicsIn(initial), map[], [])
  }

  function PublicsIn(setting: Option<KeyState>): set<string> {
    if setting.Some? then {setting.value.publicKeyPEM} else {}
  }

  /** The private key the setting holds, "" when there is none. */
  function KeyIn(setting: Option<KeyState>): string {
    if setting.Some? then TrimSpace(setting.value.privateKeyPEM) else ""
  }

  predicate Inside(l: Locking, t: nat) {
    t in l.places && l.places[t].Holds?
  }

  /** A successful save stored its value, and a generated key pair was never seen before. */
  predicate AnswerFits(p: Program, a: Answer, made: set<string>, publics: set<string>) {
    && ((p.Save? || p.Destroy?) && !a.fails ==> a.stored)
    && (p.Generate? && a.pair.Some? ==> TrimSpace(a.pair.value.privatePEM) != "" && TrimSpace(a.pair.value.privatePEM) !in made)
    && (p.Generate? && a.pair.Some? ==> a.pair.value.publicPEM !in publics)
  }

  /** The thread is about to return a state from `ensurePasswordRecoveryKey`. */
  predicate Returns(s: System, t: nat) {
    && t in s.jobs && s.jobs[t].Job? && s.jobs[t].op.Ensure?
    && s.jobs[t].program.Finished? && s.jobs[t].program.result.Shown?
  }

  function WaitingAfter(s: System, l: KeyedLocks.Step): map<nat, KeyState> {
    if l.Release? && Returns(s, l.t) then s.waiting[l.t := s.jobs[l.t].program.result.state]
    else if l.Call? then s.waiting - {l.t}
    else s.waiting
  }

  predicate Enabled(s: System, step: Step) {
    match step
    case LockStep(l, job) =>
      && KeyedLocks.Enabled(s.locking, l)
      && (l.Call? ==> job.Elsewhere? || (job.program == Entry(job.op) && l.key == LOCK_KEY))
      && (l.Release? && l.t in s.jobs && s.jobs[l.t].Job? ==> s.jobs[l.t].program.Finished?)
    case CallStep(t, a) =>
      && Inside(s.locking, t) && t in s.jobs && s.jobs[t].Job? && !s.jobs[t].program.Finished?
      && AnswerFits(s.jobs[t].program, a, s.made, s.publics)
    case Encrypt(t) => t in s.waiting
  }

  function NextCall(s: System, t: nat, a: Answer): System
    requires t in s.jobs && s.jobs[t].Job?
  {
    var p := s.jobs[t].program;
    var (setting, q) := Advance(s.setting, p, a);
    var made := if p.Generate? && a.pair.Some? then s.made + {TrimSpace(a.pair.value.privatePEM)} else s.made;
    var given := if q.Finished? && q.result.Given? then s.given + [q.result.privateKey] else s.given;
    var publics := if p.Generate? && a.pair.Some? then s.publics + {a.pair.value.publicPEM} else s.publics;
    s.(jobs := s.jobs[t := s.jobs[t].(program := q)], setting := setting, made := made, given := given, publics := publics)
  }

  function Next(s: System, step: Step): System
    requires Enabled(s, step)
  {
    match step
    case LockStep(l, job) =>
      s.(locking := KeyedLocks.Next(s.locking, l),
         jobs := if l.Call? then s.jobs[l.t := job] else if l.Release? then s.jobs - {l.t} else s.jobs,
         waiting := WaitingAfter(s, l))
    case CallStep(t, a) => NextCall(s, t, a)
    case Encrypt(t) => s.(waiting := s.waiting - {t}, used := s.used + [s.waiting[t].publicKeyPEM])
  }

  predicate Legal(s: System, steps: seq<Step>)
    decreases |steps|
  {
    steps != [] ==> Enabled(s, steps[0]) && Legal(Next(s, steps[0]), steps[1..])
  }

  function Run(s: System, steps: seq<Step>): System
    requires Legal(s, steps)
    decreases |steps|
  {
    if steps == [] then s else Run(Next(s, steps[0]), steps[1..])
  }

  /** A key that was made, is not blank and was not given. */
  predicate Unspent(key: string, made: set<string>, given: seq<string>) {
    key != "" && key in made && key !in given
  }

  /** What holds of a section between its calls. */
  predicate ProgramInv(p: Program, setting: Option<KeyState>, made: set<string>, given: seq<string>) {
    match p
    case Save(_, s) => Unspent(TrimSpace(s.privateKeyPEM), made, given)
    case Take(s) => setting == Some(s)
    case Destroy(s, key) =>
      && key == KeyIn(setting) && key != "" && TrimSpace(s.privateKeyPEM) == ""
      && setting.Some? && s.fingerprint == setting.value.fingerprint
    case Finished(r) => r.Shown? ==> setting == Some(r.state)
    case _ => true
  }

  predicate JobInv(s: System, t: nat)
    requires t in s.jobs
  {
    s.jobs[t].Job? ==>
      && t in s.locking.places && s.locking.places[t].key == LOCK_KEY
      && (if Inside(s.locking, t) then ProgramInv(s.jobs[t].program, s.setting, s.made, s.given)
          else s.jobs[t].program == Entry(s.jobs[t].op))
  }

  ghost predicate KeysInv(s: System) {
    && (KeyIn(s.setting) != "" ==> Unspent(KeyIn(s.setting), s.made, s.given))
    && (forall k :: k in s.given ==> k in s.made && k != "")
    && (forall i, j :: 0 <= i < j < |s.given| ==> s.given[i] != s.given[j])
  }

  ghost predicate Inv(s: System) {
    KeyedLocks.Inv(s.locking) && KeysInv(s) && (forall t :: t in s.jobs ==> JobInv(s, t))
  }

  lemma LockStepKeepsInv(s: System, step: Step)
    requires Inv(s) && Enabled(s, step) && step.LockStep?
    ensures Inv(Next(s, step))
  {
    var n := Next(s, step);
    KeyedLocks.StepKeepsInv(s.locking, step.step);
    forall t | t in n.jobs
      ensures JobInv(n, t)
    {
      LockStepKeepsJob(s, step, t);
    }
  }

  lemma LockStepKeepsJob(s: System, step: Step, t: nat)
    requires Inv(s) && Enabled(s, step) && step.LockStep? && t in Next(s, step).jobs
    ensures JobInv(Next(s, step), t)
  {
    var n, l := Next(s, step), step.step;
    assert !(l.Call? && l.t == t) ==> JobInv(s, t);
    assert l.t != t && t in s.locking.places ==> n.locking.places[t] == s.locking.places[t];
  }

  /** One call of a section keeps what holds of the keys and of the section. */
  lemma CallKeepsKeys(s: System, t: nat, a: Answer)
    requires t in s.jobs && s.jobs[t].Job? && KeysInv(s) && ProgramInv(s.jobs[t].program, s.setting, s.made, s.given)
    requires !s.jobs[t].program.Finished? && AnswerFits(s.jobs[t].program, a, s.made, s.publics)
    ensures var n := NextCall(s, t, a);
            KeysInv(n) && ProgramInv(n.jobs[t].program, n.setting, n.made, n.given) && s.given <= n.given
  {
    var p := s.jobs[t].program;
    assert p.Generate? && a.pair.Some? ==> TrimSpace(a.pair.value.privatePEM) !in s.given;
    assert TrimSpace("") == "";
  }

  lemma CallStepKeepsInv(s: System, step: Step)
    requires Inv(s) && Enabled(s, step) && step.CallStep?
    ensures Inv(Next(s, step)) && s.given <= Next(s, step).given
  {
    var n := Next(s, step);
    assert JobInv(s, step.t);
    CallKeepsKeys(s, step.t, step.a);
    forall t | t in n.jobs
      ensures JobInv(n, t)
    {
      if t != step.t {
        OtherJobIsOutside(s, t, step.t);
      }
    }
  }

  /** While one section runs, every other one waits. */
  lemma OtherJobIsOutside(s: System, t: nat, u: nat)
    requires Inv(s) && t in s.jobs && u in s.jobs && t != u && s.jobs[u].Job? && Inside(s.locking, u)
    ensures s.jobs[t].Job? ==> JobInv(s, t) && !Inside(s.locking, t)
  {
    assert JobInv(s, t) && JobInv(s, u);
    if s.jobs[t].Job? && Inside(s.locking, t) {
      AtMostOneInside(s.locking, t, u);
    }
  }

  lemma EncryptKeepsInv(s: System, step: Step)
    requires Inv(s) && Enabled(s, step) && step.Encrypt?
    ensures Inv(Next(s, step)) && s.given == Next(s, step).given
  {
    forall t | t in s.jobs
      ensures JobInv(Next(s, step), t)
    {
      assert JobInv(s, t);
    }
  }

  lemma StepKeepsInv(s: System, step: Step)
    requires Inv(s) && Enabled(s, step)
    ensures Inv(Next(s, step)) && s.given <= Next(s, step).given
  {
    match step {
      case LockStep(_, _) => LockStepKeepsInv(s, step);
      case CallStep(_, _) => CallStepKeepsInv(s, step);
      case Encrypt(_) => EncryptKeepsInv(s, step);
    }
  }

  lemma {:induction false} InvHolds(s: System, steps: seq<Step>)
    requires Inv(s) && Legal(s, steps)
    ensures Inv(Run(s, steps)) && s.given <= Run(s, steps).given
    decreases |steps|
  {
    if steps != [] {
      StepKeepsInv(s, steps[0]);
      InvHolds(Next(s, steps[0]), steps[1..]);
    }
  }

  /** In every interleaving, no private key is given out twice, and a given key is no longer stored. */
  lemma EachKeyIsGivenOnce(initial: Option<KeyState>, steps: seq<Step>)
    requires Legal(Start(initial), steps)
    ensures var s := Run(Start(initial), steps);
            && (forall i, j :: 0 <= i < j < |s.given| ==> s.given[i] != s.given[j])
            && (forall k :: k in s.given ==> k in s.made && k != "" && KeyIn(s.setting) != k)
  {
    InvHolds(Start(initial), steps);
  }

  /** A key given at some time is never given or stored again. */
  lemma GivenKeysAreGone(initial: Option<KeyState>, before: seq<Step>, after: seq<Step>, key: string)
    requires Legal(Start(initial), before) && Legal(Run(Start(initial), before), after)
    requires key in Run(Start(initial), before).given
    ensures var s, t := Run(Start(initial), before), Run(Run(Start(initial), before), after);
            s.given <= t.given && key !in t.given[|s.given|..] && KeyIn(t.setting) != key
  {
    InvHolds(Start(initial), before);
    var s := Run(Start(initial), before);
    InvHolds(s, after);
    var t := Run(s, after);
    var i :| 0 <= i < |s.given| && s.given[i] == key;
    assert t.given[i] == key;
    assert forall j :: |s.given| <= j < |t.given| ==> t.given[j] != t.given[i];
  }

  /** When a section ends by showing a state, that state is the stored one until the section unlocks. */
  lemma ShownStateIsStored(initial: Option<KeyState>, steps: seq<Step>, t: nat)
    requires Legal(Start(initial), steps)
    requires var s := Run(Start(initial), steps);
             t in s.jobs && s.jobs[t].Job? && Inside(s.locking, t) && s.jobs[t].program.Finished? && s.jobs[t].program.result.Shown?
    ensures var s := Run(Start(initial), steps);
            s.setting == Some(s.jobs[t].program.result.state)
  {
    InvHolds(Start(initial), steps);
    assert JobInv(Run(Start(initial), steps), t);
  }

  // ------------------------------------------------------------------ sections are atomic

  /** The answers the calls of thread `t` got. */
  function AnswersOf(steps: seq<Step>, t: nat): seq<Answer> {
    if steps == [] then []
    else (if steps[0].CallStep? && steps[0].t == t then [steps[0].a] else []) + AnswersOf(steps[1..], t)
  }

  function Calls(setting: Option<KeyState>, p: Program, answers: seq<Answer>): (Option<KeyState>, Program)
    decreases |answers|
  {
    if answers == [] then (setting, p)
    else
      var (next, q) := Advance(setting, p, answers[0]);
      Calls(next, q, answers[1..])
  }

  predicate Releases(step: Step, t: nat) {
    step.LockStep? && step.step == Release(t)
  }

  lemma OthersChangeNothing(s: System, step: Step, t: nat)
    requires Inv(s) && Enabled(s, step) && t in s.jobs && s.jobs[t].Job? && Inside(s.locking, t) && !Releases(step, t)
    ensures var n := Next(s, step);
            && t in n.jobs && n.jobs[t].Job? && Inside(n.locking, t)
            && (step.CallStep? && step.t == t ==> (n.setting, n.jobs[t].program) == Advance(s.setting, s.jobs[t].program, step.a))
            && (!(step.CallStep? && step.t == t) ==> n.setting == s.setting && n.jobs[t] == s.jobs[t])
  {
    if step.CallStep? && step.t != t {
      OtherJobIsOutside(s, step.t, t);
    }
  }

  /** From its lock to its unlock a section is alone with the setting, whatever the other threads do meanwhile. */
  lemma {:induction false} SectionIsAtomic(s: System, steps: seq<Step>, t: nat)
    requires Inv(s) && Legal(s, steps) && t in s.jobs && s.jobs[t].Job? && Inside(s.locking, t)
    requires forall i :: 0 <= i < |steps| ==> !Releases(steps[i], t)
    ensures var n := Run(s, steps);
            t in n.jobs && n.jobs[t].Job? && (n.setting, n.jobs[t].program) == Calls(s.setting, s.jobs[t].program, AnswersOf(steps, t))
    decreases |steps|
  {
    if steps != [] {
      StepKeepsInv(s, steps[0]);
      OthersChangeNothing(s, steps[0], t);
      SectionIsAtomic(Next(s, steps[0]), steps[1..], t);
      var rest := AnswersOf(steps[1..], t);
      if steps[0].CallStep? && steps[0].t == t {
        assert AnswersOf(steps, t) == [steps[0].a] + rest;
        assert ([steps[0].a] + rest)[1..] == rest;
      } else {
        assert AnswersOf(steps, t) == rest;
      }
    }
  }

  function WithAnswer(a: Answers, p: Program, x: Answer): Answers {
    match p
    case Wipe => a.(wipe := x)
    case Load(_) => a.(load := x)
    case Generate(_) => a.(generate := x)
    case Save(_, _) => a.(save := x)
    case Take(_) => a.(clock := x)
    case _ => a.(destroy := x)
  }

  lemma {:induction false} EarlierAnswersDoNotMatter(setting: Option<KeyState>, q: Program, a: Answers, p: Program, x: Answer)
    requires CallsLeft(q) < CallsLeft(p)
    ensures Complete(setting, q, WithAnswer(a, p, x)) == Complete(setting, q, a)
    decreases CallsLeft(q)
  {
    if !q.Finished? {
      var (next, r) := Advance(setting, q, AnswerTo(q, a));
      EarlierAnswersDoNotMatter(next, r, a, p, x);
    }
  }

  /** A finished section did what the uninterrupted handler does for some answers of the store. */
  lemma {:induction false} FinishedSectionIsAHandlerCall(setting: Option<KeyState>, p: Program,
                                                         answers: seq<Answer>) returns (a: Answers)
    requires Calls(setting, p, answers).1.Finished?
    ensures Complete(setting, p, a) == (Calls(setting, p, answers).0, Calls(setting, p, answers).1.result)
    decreases |answers|
  {
    if answers == [] {
      var any := Answer(true, false, None, "");
      a := Answers(any, any, any, any, any, any);
    } else {
      var (next, q) := Advance(setting, p, answers[0]);
      var rest := FinishedSectionIsAHandlerCall(next, q, answers[1..]);
      if p.Finished? {
        a := rest;
      } else {
        a := WithAnswer(rest, p, answers[0]);
        EarlierAnswersDoNotMatter(next, q, rest, p, answers[0]);
      }
    }
  }
}
