/**
 What the three handlers of core/internal/server/password_recovery_key.go return and store, from the stored state and the
 answers of the store alone, and that a destroyed private key was given.
 */
module RecoveryDownloads {
  import opened Wrappers
  import opened Strings
  import opened RecoveryKey
  import KeyedLocks

  /** The generated pair with the time it was made at. */
  function Made(pair: KeyPair, now: string): KeyState {
    KeyState(pair.algorithm, pair.publicPEM, pair.privatePEM, pair.fingerprint, pair.sizeBits, now, "")
  }

  /** The state without its private key. */
  function Emptied(s: KeyState, now: string): KeyState {
    KeyState(s.algorithm, s.publicKeyPEM, "", s.fingerprint, s.sizeBits, s.createdAt, now)
  }

  predicate HasUsable(setting: Option<KeyState>) {
    && setting.Some? && TrimSpace(setting.value.publicKeyPEM) != "" && TrimSpace(setting.value.fingerprint) != ""
  }

  /** The state a download or an ensure goes on with: the stored one when it is usable, else a new one that was saved. */
  function Found(setting: Option<KeyState>, a: Answers): Option<KeyState> {
    if a.load.fails then None
    else if HasUsable(setting) then setting
    else if a.generate.pair.None? || a.save.fails then None
    else Some(Made(a.generate.pair.value, a.generate.now))
  }

  /** What is stored when the state was found, or was not. */
  function StoredByThen(setting: Option<KeyState>, a: Answers): Option<KeyState> {
    if a.load.fails || HasUsable(setting) || a.generate.pair.None? || !a.save.stored then setting
    else Some(Made(a.generate.pair.value, a.generate.now))
  }

  lemma SectionFinds(setting: Option<KeyState>, op: Op, a: Answers)
    requires !op.Reset?
    ensures Complete(setting, Load(op), a)
         == match Found(setting, a)
            case None => (StoredByThen(setting, a), Failed)
            case Some(s) => Complete(StoredByThen(setting, a), WithState(op, s), a)
  {
    if !a.load.fails && !HasUsable(setting) && a.generate.pair.Some? {
      var made := Made(a.generate.pair.value, a.generate.now);
      assert Complete(setting, Load(op), a) == Complete(setting, Generate(op), a) == Complete(setting, Save(op, made), a);
    }
  }

  /**
   A download gives exactly the private key of the state it found, with its fingerprint, if and only if there is one and the
   destroying save succeeds. It says that the key was destroyed if and only if the state it found has none.
   */
  lemma DownloadReturns(setting: Option<KeyState>, a: Answers)
    ensures var (after, r) := Complete(setting, Entry(Download), a);
            var found := Found(setting, a);
            && (r.Given? <==> found.Some? && TrimSpace(found.value.privateKeyPEM) != "" && !a.destroy.fails)
            && (r.Given? ==> r == Given(TrimSpace(found.value.privateKeyPEM), found.value.fingerprint))
            && (r == Destroyed <==> found.Some? && TrimSpace(found.value.privateKeyPEM) == "")
            && (r == Failed <==> found.None? || (TrimSpace(found.value.privateKeyPEM) != "" && a.destroy.fails))
            && after == if found.Some? && TrimSpace(found.value.privateKeyPEM) != "" && a.destroy.stored
                        then Some(Emptied(found.value, a.clock.now)) else StoredByThen(setting, a)
  {
    SectionFinds(setting, Download, a);
    var found := Found(setting, a);
    if found.Some? && TrimSpace(found.value.privateKeyPEM) != "" {
      KeyIsTaken(StoredByThen(setting, a), found.value, a);
    }
  }

  lemma KeyIsTaken(setting: Option<KeyState>, s: KeyState, a: Answers)
    requires TrimSpace(s.privateKeyPEM) != ""
    ensures Complete(setting, Take(s), a)
         == (if a.destroy.stored then Some(Emptied(s, a.clock.now)) else setting,
             if a.destroy.fails then Failed else Given(TrimSpace(s.privateKeyPEM), s.fingerprint))
  {
    var key, e := TrimSpace(s.privateKeyPEM), Emptied(s, a.clock.now);
    assert Advance(setting, Take(s), a.clock) == (setting, Destroy(e, key));
    var stored := if a.destroy.stored then Some(e) else setting;
    var result := if a.destroy.fails then Failed else Given(key, s.fingerprint);
    assert Advance(setting, Destroy(e, key), a.destroy) == (stored, Finished(result));
    assert Complete(stored, Finished(result), a) == (stored, result);
  }

  /** An ensure returns the state it found; it stores nothing but a new one. */
  lemma EnsureReturns(setting: Option<KeyState>, a: Answers)
    ensures Complete(setting, Entry(Ensure), a)
         == (StoredByThen(setting, a), match Found(setting, a) case None => Failed case Some(s) => Shown(s))
  {
    SectionFinds(setting, Ensure, a);
  }

  /** A reset makes a new key whatever is stored, and returns it if and only if wiping, making and saving succeed. */
  lemma ResetReturns(setting: Option<KeyState>, a: Answers)
    ensures var made := !a.wipe.fails && a.generate.pair.Some?;
            var state := if made then Some(Made(a.generate.pair.value, a.generate.now)) else None;
            Complete(setting, Entry(Reset), a)
            == (if made && a.save.stored then state else setting,
                if made && !a.save.fails then Shown(state.value) else Failed)
  {
    if !a.wipe.fails && a.generate.pair.Some? {
      var state := Made(a.generate.pair.value, a.generate.now);
      assert Complete(setting, Wipe, a) == Complete(setting, Generate(Reset), a) == Complete(setting, Save(Reset, state), a);
    }
  }

  // ------------------------------------------------------------------ all interleavings

  /**
   In every interleaving, a destroying save that succeeds ends its download with the key that was stored until then, which
   is one of the keys given from then on; the stored state has no private key left.
   */
  lemma DestroyedKeyIsGiven(initial: Option<KeyState>, before: seq<Step>, t: nat, a: Answer, after: seq<Step>)
    requires Legal(Start(initial), before)
    requires var s := Run(Start(initial), before);
             Enabled(s, CallStep(t, a)) && s.jobs[t].program.Destroy? && !a.fails && Legal(Next(s, CallStep(t, a)), after)
    ensures var s := Run(Start(initial), before);
            var n := Next(s, CallStep(t, a));
            && s.setting.Some? && KeyIn(s.setting) != ""
            && t in n.jobs && n.jobs[t].Job?
            && n.jobs[t].program == Finished(Given(KeyIn(s.setting), s.setting.value.fingerprint))
            && KeyIn(n.setting) == "" && KeyIn(s.setting) in Run(n, after).given
  {
    var s := Run(Start(initial), before);
    InvHolds(Start(initial), before);
    assert JobInv(s, t);
    var n := Next(s, CallStep(t, a));
    StepKeepsInv(s, CallStep(t, a));
    InvHolds(n, after);
    var key := KeyIn(s.setting);
    assert n.given == s.given + [key];
    assert n.given[|s.given|] == key && n.given <= Run(n, after).given;
    assert Run(n, after).given[|s.given|] == key;
  }

  /** A finished download section, whatever ran beside it, returned what the answers to its own calls say. */
  lemma FinishedDownloadReturns(s: System, steps: seq<Step>, t: nat) returns (a: Answers)
    requires Inv(s) && Legal(s, steps) && t in s.jobs && s.jobs[t].Job? && Inside(s.locking, t)
    requires s.jobs[t].program == Entry(Download) && forall i :: 0 <= i < |steps| ==> !Releases(steps[i], t)
    requires var n := Run(s, steps); t in n.jobs && n.jobs[t].Job? && n.jobs[t].program.Finished?
    ensures var n := Run(s, steps);
            var r, found := n.jobs[t].program.result, Found(s.setting, a);
            && (r.Given? <==> found.Some? && TrimSpace(found.value.privateKeyPEM) != "" && !a.destroy.fails)
            && (r.Given? ==> r == Given(TrimSpace(found.value.privateKeyPEM), found.value.fingerprint))
            && (r == Destroyed <==> found.Some? && TrimSpace(found.value.privateKeyPEM) == "")
  {
    SectionIsAtomic(s, steps, t);
    a := FinishedSectionIsAHandlerCall(s.setting, Entry(Download), AnswersOf(steps, t));
    DownloadReturns(s.setting, a);
  }
}
