/**
 The coalescing refresh queue of core/internal/server/ip_geo_sources.go: a bounded channel of source
 ids, a map of pending jobs, a map of active sources, and one worker that receives, begins and finishes.
 */
module RefreshQueue {
  import opened Wrappers
  import opened Strings

  const CAPACITY := 256

  datatype Job = Job(sourceID: string, force: bool, repeatIfActive: bool)

  datatype QueueState = QueueState(queue: seq<string>, pending: map<string, Job>, active: set<string>)

  /** `queueIPGeoRefresh`, one critical section under the queue's mutex. */
  function Enqueue(q: QueueState, raw: Job): (QueueState, bool) {
    EnqueueTrimmed(q, raw.(sourceID := TrimSpace(raw.sourceID)))
  }

  function EnqueueTrimmed(q: QueueState, job: Job): (QueueState, bool) {
    var id := job.sourceID;
    if id == "" then (q, false)
    else if id in q.pending then
      var p := q.pending[id];
      (q.(pending := q.pending[id := p.(force := p.force || job.force,
                                        repeatIfActive := p.repeatIfActive || job.repeatIfActive)]), true)
    else if id in q.active && !job.repeatIfActive then (q, true)
    else if |q.queue| < CAPACITY then (q.(queue := q.queue + [id], pending := q.pending[id := job]), true)
    else (q, false)
  }

  function Begin(q: QueueState, id: string): (QueueState, Option<Job>) {
    if id !in q.pending then (q, None)
    else (q.(pending := q.pending - {id}, active := q.active + {id}), Some(q.pending[id]))
  }

  function Finish(q: QueueState, id: string): QueueState {
    q.(active := q.active - {id})
  }

  class Queue {
    var ipGeoRefreshQ: seq<string>
    var ipGeoPending: map<string, Job>
    var ipGeoActive: set<string>

    constructor ()
      ensures State() == QueueState([], map[], {})
    {
      ipGeoRefreshQ, ipGeoPending, ipGeoActive := [], map[], {};
    }

    function State(): QueueState
      reads this
    {
      QueueState(ipGeoRefreshQ, ipGeoPending, ipGeoActive)
    }

    method queueIPGeoRefresh(raw: Job) returns (accepted: bool)
      modifies this
      ensures (State(), accepted) == Enqueue(old(State()), raw)
    {
      var job := raw.(sourceID := TrimSpace(raw.sourceID));
      if job.sourceID == "" {
        return false;
      }
      if job.sourceID in ipGeoPending {
        var pending := ipGeoPending[job.sourceID];
        pending := pending.(force := pending.force || job.force);
        pending := pending.(repeatIfActive := pending.repeatIfActive || job.repeatIfActive);
        ipGeoPending := ipGeoPending[job.sourceID := pending];
        return true;
      }
      if job.sourceID in ipGeoActive && !job.repeatIfActive {
        return true;
      }
      ghost var before := ipGeoPending;
      ipGeoPending := ipGeoPending[job.sourceID := job];
      if |ipGeoRefreshQ| < CAPACITY {
        ipGeoRefreshQ := ipGeoRefreshQ + [job.sourceID];
        return true;
      }
      ipGeoPending := ipGeoPending - {job.sourceID};
      assert ipGeoPending == before;
      return false;
    }

    method receive() returns (id: string)
      requires ipGeoRefreshQ != []
      modifies this`ipGeoRefreshQ
      ensures id == old(ipGeoRefreshQ)[0] && ipGeoRefreshQ == old(ipGeoRefreshQ)[1..]
    {
      id := ipGeoRefreshQ[0];
      ipGeoRefreshQ := ipGeoRefreshQ[1..];
    }

    method beginIPGeoRefresh(sourceID: string) returns (job: Option<Job>)
      modifies this`ipGeoPending, this`ipGeoActive
      ensures (State(), job) == Begin(old(State()), sourceID)
    {
      if sourceID !in ipGeoPending {
        return None;
      }
      job := Some(ipGeoPending[sourceID]);
      ipGeoPending := ipGeoPending - {sourceID};
      ipGeoActive := ipGeoActive + {sourceID};
    }

    method finishIPGeoRefresh(sourceID: string)
      modifies this`ipGeoActive
      ensures State() == Finish(old(State()), sourceID)
    {
      ipGeoActive := ipGeoActive - {sourceID};
    }
  }

  // ------------------------------------------------------------------ all interleavings

  /** Where the worker of `startIPGeoUpdateLoop` stands. */
  datatype Worker = Idle | Holding(id: string) | Running(job: Job)

  datatype System = System(q: QueueState, worker: Worker)

  /** Any goroutine may enqueue at any time; the other steps are the worker's. */
  datatype Step = EnqueueStep(job: Job) | ReceiveStep | BeginStep | FinishStep

  predicate Enabled(s: System, step: Step) {
    match step
    case EnqueueStep(_) => true
    case ReceiveStep => s.worker.Idle? && s.q.queue != []
    case BeginStep => s.worker.Holding?
    case FinishStep => s.worker.Running?
  }

  function Next(s: System, step: Step): System
    requires Enabled(s, step)
  {
    match step
    case EnqueueStep(job) => s.(q := Enqueue(s.q, job).0)
    case ReceiveStep => System(s.q.(queue := s.q.queue[1..]), Holding(s.q.queue[0]))
    case BeginStep =>
      var (q, job) := Begin(s.q, s.worker.id);
      System(q, if job.Some? then Running(job.value) else Idle)
    case FinishStep => System(Finish(s.q, s.worker.job.sourceID), Idle)
  }

  const START := System(QueueState([], map[], {}), Idle)

  predicate Legal(s: System, steps: seq<Step>)
    decreases |steps|
  {
    steps != [] ==> Enabled(s, steps[0]) && Legal(Next(s, steps[0]), steps[1..])
  }

  function Run(s: System, steps: seq<Step>): System
    requires Legal(s, steps)
    decreases |steps|
  {
    if steps == [] then s else Run(Next(s, steps[0]), steps[1..])
  }

  /** The ids that were received but not begun, then those in the channel. */
  function Waiting(s: System): seq<string> {
    (if s.worker.Holding? then [s.worker.id] else []) + s.q.queue
  }

  predicate NoRepeats(s: seq<string>) {
    forall i, j :: 0 <= i < j < |s| ==> s[i] != s[j]
  }

  lemma NoRepeatsWithoutFirst(s: seq<string>)
    requires s != [] && NoRepeats(s)
    ensures NoRepeats(s[1..]) && s[0] !in s[1..]
  {
    assert forall i :: 0 <= i < |s[1..]| ==> s[1..][i] == s[i + 1];
  }

  /** The list holds every pending id, each once. */
  ghost predicate Matches(waiting: seq<string>, pending: map<string, Job>) {
    NoRepeats(waiting) && forall id :: id in waiting <==> id in pending
  }

  lemma MatchesWithoutHead(head: string, rest: seq<string>, pending: map<string, Job>)
    requires Matches([head] + rest, pending)
    ensures head in pending && Matches(rest, pending - {head})
  {
    var all := [head] + rest;
    NoRepeatsWithoutFirst(all);
    assert all[1..] == rest && all[0] == head && head in all;
    forall id
      ensures id in rest <==> id in pending - {head}
    {
      assert id in all <==> id == head || id in rest;
    }
  }

  ghost predicate Inv(s: System) {
    && Matches(Waiting(s), s.q.pending)
    && (forall id :: id in s.q.pending ==> s.q.pending[id].sourceID == id && id != "")
    && |s.q.queue| <= CAPACITY
    && s.q.active == (if s.worker.Running? then {s.worker.job.sourceID} else {})
  }

  lemma EnqueueKeepsInv(s: System, job: Job)
    requires Inv(s)
    ensures var t := s.(q := EnqueueTrimmed(s.q, job).0);
            && Inv(t)
            && (Waiting(t) == Waiting(s) || Waiting(t) == Waiting(s) + [job.sourceID])
  {
    var t := s.(q := EnqueueTrimmed(s.q, job).0);
    if |t.q.queue| > |s.q.queue| {
      assert Waiting(t) == Waiting(s) + [job.sourceID];
      MatchesWithOneMore(Waiting(s), s.q.pending, job);
    }
  }

  lemma MatchesWithOneMore(waiting: seq<string>, pending: map<string, Job>, job: Job)
    requires Matches(waiting, pending) && job.sourceID !in pending
    ensures Matches(waiting + [job.sourceID], pending[job.sourceID := job])
  {
    assert job.sourceID !in waiting;
  }

  lemma BeginKeepsInv(s: System)
    requires Inv(s) && s.worker.Holding?
    ensures Inv(Next(s, BeginStep)) && Waiting(Next(s, BeginStep)) == Waiting(s)[1..]
  {
    assert Waiting(s) == [s.worker.id] + s.q.queue;
    MatchesWithoutHead(s.worker.id, s.q.queue, s.q.pending);
    AfterBegin(s);
    assert ([s.worker.id] + s.q.queue)[1..] == s.q.queue;
  }

  lemma AfterBegin(s: System)
    requires s.worker.Holding? && s.worker.id in s.q.pending
    ensures var t := Next(s, BeginStep);
            && t.worker == Running(s.q.pending[s.worker.id])
            && t.q == QueueState(s.q.queue, s.q.pending - {s.worker.id}, s.q.active + {s.worker.id})
            && Waiting(t) == s.q.queue
  {
  }

  /** Every step keeps the invariant; begins take the first waiting id, enqueues may add one at the end. */
  lemma StepKeepsInv(s: System, step: Step)
    requires Inv(s) && Enabled(s, step)
    ensures Inv(Next(s, step))
    ensures step.BeginStep? ==> Waiting(Next(s, step)) == Waiting(s)[1..]
    ensures !step.BeginStep? ==> Waiting(s) <= Waiting(Next(s, step))
  {
    var t := Next(s, step);
    match step
    case EnqueueStep(job) => EnqueueKeepsInv(s, job.(sourceID := TrimSpace(job.sourceID)));
    case ReceiveStep => assert Waiting(t) == Waiting(s);
    case BeginStep => BeginKeepsInv(s);
    case FinishStep => assert Waiting(t) == Waiting(s);
  }

  /**
   In every reachable state the channel and the worker's hand hold each pending source exactly once and
   nothing else, and at most one source is active.
   */
  lemma {:induction false} InvHolds(s: System, steps: seq<Step>)
    requires Inv(s) && Legal(s, steps)
    ensures Inv(Run(s, steps))
    decreases |steps|
  {
    if steps != [] {
      StepKeepsInv(s, steps[0]);
      InvHolds(Next(s, steps[0]), steps[1..]);
    }
  }

  /** The worker never finds its job missing, and the source it begins was not active. */
  lemma BeginNeverMisses(steps: seq<Step>)
    requires Legal(START, steps) && Run(START, steps).worker.Holding?
    ensures var s := Run(START, steps);
            Begin(s.q, s.worker.id).1.Some? && s.q.active == {}
  {
    InvHolds(START, steps);
    var s := Run(START, steps);
    assert Waiting(s)[0] == s.worker.id;
  }

  // ------------------------------------------------------------------ what an answer means

  predicate Covers(a: Job, b: Job) {
    (b.force ==> a.force) && (b.repeatIfActive ==> a.repeatIfActive)
  }

  /**
   An accepted request is pending with at least its flags, or its source is already active and it did not
   ask for a repeat; a refused one left the state alone, because its id was blank or the channel was full.
   */
  lemma EnqueueAnswers(q: QueueState, job: Job)
    ensures var (t, accepted) := Enqueue(q, job); var id := TrimSpace(job.sourceID);
            && (accepted <==> id != "" && (id in q.pending || (id in q.active && !job.repeatIfActive) || |q.queue| < CAPACITY))
            && (accepted ==> (id in t.pending && Covers(t.pending[id], job)) || (t == q && id in q.active && !job.repeatIfActive))
            && (!accepted ==> t == q)
            && (forall other :: other != id ==>
                  (other in q.pending <==> other in t.pending) && (other in q.pending ==> q.pending[other] == t.pending[other]))
  {
  }

  /** The request waits in pending with at least its flags; `FlagsSurvive` says that they reach the next begin. */
  predicate IsPending(q: QueueState, job: Job) {
    var id := TrimSpace(job.sourceID);
    id in q.pending && Covers(q.pending[id], job)
  }

  /** The refresh that is running now does what the request asks for. */
  predicate RunningCovers(s: System, job: Job) {
    s.worker.Running? && s.worker.job.sourceID == TrimSpace(job.sourceID) && (job.force ==> s.worker.job.force)
  }

  /**
   What becomes of an accepted request: its flags wait for a begin exactly when its id is pending, or not active,
   or it asks for a repeat. Otherwise nothing changes, and the running refresh of that source covers it exactly
   when that is forced or the request is not.
   */
  lemma AcceptedIsServedIff(s: System, job: Job)
    requires Inv(s) && Enqueue(s.q, job).1
    ensures var (t, _) := Enqueue(s.q, job); var id := TrimSpace(job.sourceID);
            && (IsPending(t, job) <==> id in s.q.pending || id !in s.q.active || job.repeatIfActive)
            && (!IsPending(t, job) ==>
                  && t == s.q
                  && s.worker.Running? && s.worker.job.sourceID == id
                  && (RunningCovers(s, job) <==> !job.force || s.worker.job.force))
  {
    EnqueueAnswers(s.q, job);
  }

  /** A forced request during an unforced refresh is accepted, and the run ends with nothing left to do. */
  lemma ForceIsDropped(id: string) returns (steps: seq<Step>)
    requires id != "" && TrimSpace(id) == id
    ensures steps == [EnqueueStep(Job(id, false, false)), ReceiveStep, BeginStep, EnqueueStep(Job(id, true, false)), FinishStep]
    ensures Legal(START, steps) && Run(START, steps) == START
    ensures FirstBegun(START, steps, id) == Some(Job(id, false, false))
    ensures Legal(START, steps[..3])
    ensures var s := Run(START, steps[..3]);
            Enqueue(s.q, Job(id, true, false)) == (s.q, true) && !RunningCovers(s, Job(id, true, false))
  {
    var plain, forced := Job(id, false, false), Job(id, true, false);
    steps := [EnqueueStep(plain), ReceiveStep, BeginStep, EnqueueStep(forced), FinishStep];
    var s1 := System(QueueState([id], map[id := plain], {}), Idle);
    var s2 := System(QueueState([], map[id := plain], {}), Holding(id));
    var s3 := System(QueueState([], map[], {id}), Running(plain));
    assert plain.(sourceID := TrimSpace(id)) == plain && forced.(sourceID := TrimSpace(id)) == forced;
    assert [] + [id] == [id] && map[][id := plain] == map[id := plain];
    assert EnqueueTrimmed(START.q, plain) == (s1.q, true);
    assert Next(START, steps[0]) == s1;
    assert Next(s1, steps[1]) == s2;
    assert Next(s2, steps[2]) == s3;
    assert Enqueue(s3.q, forced) == (s3.q, true) && Next(s3, steps[3]) == s3;
    assert Next(s3, steps[4]) == START;
    assert Begin(s2.q, id).1 == Some(plain);
    RunOne(START, s1, steps);
    RunOne(s1, s2, steps[1..]);
    RunOne(s2, s3, steps[2..]);
    RunOne(s3, s3, steps[3..]);
    RunOne(s3, START, steps[4..]);
    RunOne(START, s1, steps[..3]);
    RunOne(s1, s2, steps[..3][1..]);
    RunOne(s2, s3, steps[..3][2..]);
    assert steps[1..][1..] == steps[2..] && steps[2..][1..] == steps[3..] && steps[3..][1..] == steps[4..] && steps[4..][1..] == [];
    assert steps[..3][1..][1..] == steps[..3][2..] && steps[..3][2..][1..] == [];
  }

  lemma RunOne(s: System, t: System, steps: seq<Step>)
    requires steps != [] && Enabled(s, steps[0]) && Next(s, steps[0]) == t
    ensures Legal(s, steps) <==> Legal(t, steps[1..])
    ensures Legal(s, steps) ==> Run(s, steps) == Run(t, steps[1..])
    ensures Legal(s, steps) && !steps[0].BeginStep? ==>
              forall id :: FirstBegun(s, steps, id) == FirstBegun(t, steps[1..], id)
  {
  }

  /** The job that the first `BeginStep` of `id` in the run starts. */
  function FirstBegun(s: System, steps: seq<Step>, id: string): Option<Job>
    requires Legal(s, steps)
    decreases |steps|
  {
    if steps == [] then None
    else if steps[0].BeginStep? && s.worker.id == id && Begin(s.q, id).1.Some? then Begin(s.q, id).1
    else FirstBegun(Next(s, steps[0]), steps[1..], id)
  }

  lemma PendingStays(s: System, step: Step, id: string)
    requires Inv(s) && Enabled(s, step) && id in s.q.pending
    requires !(step.BeginStep? && s.worker.id == id)
    ensures id in Next(s, step).q.pending && Covers(Next(s, step).q.pending[id], s.q.pending[id])
  {
  }

  /** A pending job keeps its flags until it begins: the next begin of its source has all of them. */
  lemma {:induction false} FlagsSurvive(s: System, steps: seq<Step>, id: string)
    requires Inv(s) && Legal(s, steps) && id in s.q.pending
    ensures match FirstBegun(s, steps, id)
            case Some(job) => job.sourceID == id && Covers(job, s.q.pending[id])
            case None => id in Run(s, steps).q.pending && Covers(Run(s, steps).q.pending[id], s.q.pending[id])
    decreases |steps|
  {
    if steps != [] && !(steps[0].BeginStep? && s.worker.id == id) {
      StepKeepsInv(s, steps[0]);
      PendingStays(s, steps[0], id);
      FlagsSurvive(Next(s, steps[0]), steps[1..], id);
    }
  }

  function CountBegins(steps: seq<Step>): nat {
    if steps == [] then 0 else (if steps[0].BeginStep? then 1 else 0) + CountBegins(steps[1..])
  }

  /** First in, first out: the source at position `p` of the waiting list begins with one of the next p + 1 begins. */
  lemma {:induction false} WaitIsBounded(s: System, steps: seq<Step>, p: nat)
    requires Inv(s) && Legal(s, steps) && p < |Waiting(s)|
    requires CountBegins(steps) > p
    ensures FirstBegun(s, steps, Waiting(s)[p]).Some?
    decreases |steps|
  {
    StepKeepsInv(s, steps[0]);
    var t := Next(s, steps[0]);
    if !steps[0].BeginStep? {
      WaitIsBounded(t, steps[1..], p);
    } else if p > 0 {
      assert Waiting(s)[0] == s.worker.id;
      WaitIsBounded(t, steps[1..], p - 1);
    } else {
      assert Waiting(s)[0] in s.q.pending;
    }
  }

  // ------------------------------------------------------------------ exactly the flags that were asked for

  function FlagOf(job: Job, force: bool): bool {
    if force then job.force else job.repeatIfActive
  }

  /** The step is a request that ends up in the pending job of this source. */
  predicate JoinsPending(s: System, step: Step, id: string)
    requires Enabled(s, step)
  {
    step.EnqueueStep? && TrimSpace(step.job.sourceID) == id && id in Next(s, step).q.pending
  }

  predicate Begins(s: System, step: Step, id: string) {
    step.BeginStep? && s.worker.Holding? && s.worker.id == id
  }

  /** Before the next begin of this source, some request with the flag joins its pending job. */
  predicate SomeoneAsks(s: System, steps: seq<Step>, id: string, force: bool)
    requires Legal(s, steps)
    decreases |steps|
  {
    && steps != [] && !Begins(s, steps[0], id)
    && ((JoinsPending(s, steps[0], id) && FlagOf(steps[0].job, force)) || SomeoneAsks(Next(s, steps[0]), steps[1..], id, force))
  }

  predicate PendingHas(q: QueueState, id: string, force: bool) {
    id in q.pending && FlagOf(q.pending[id], force)
  }

  lemma StepKeepsFlags(s: System, step: Step, id: string, force: bool)
    requires Inv(s) && Enabled(s, step) && !Begins(s, step, id)
    ensures PendingHas(Next(s, step).q, id, force)
       <==> PendingHas(s.q, id, force) || (JoinsPending(s, step, id) && FlagOf(step.job, force))
  {
  }

  /**
   In every run, a job that begins is forced exactly when it was pending with force before or some request that joined it
   was forced; it repeats exactly when one of them asked for that.
   */
  lemma {:induction false} BegunFlagsIff(s: System, steps: seq<Step>, id: string, force: bool)
    requires Inv(s) && Legal(s, steps) && FirstBegun(s, steps, id).Some?
    ensures FlagOf(FirstBegun(s, steps, id).value, force) <==> PendingHas(s.q, id, force) || SomeoneAsks(s, steps, id, force)
    decreases |steps|
  {
    if !Begins(s, steps[0], id) {
      StepKeepsFlags(s, steps[0], id, force);
      StepKeepsInv(s, steps[0]);
      BegunFlagsIff(Next(s, steps[0]), steps[1..], id, force);
    } else {
      assert Waiting(s)[0] == id && id in s.q.pending;
    }
  }
}
