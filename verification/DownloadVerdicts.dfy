/**
 When one attempt of `downloadIPGeoURL` (core/internal/server/ip_geo_sources.go) succeeds, is repeated or fails, from the
 response and the events of its body.
 */
module DownloadVerdicts {
  import opened Wrappers
  import opened Download

  // ------------------------------------------------------------------ the body

  /** The bytes read before event `k`. */
  function ReadBefore(events: seq<CopyEvent>, k: nat): nat
    requires k <= |events|
  {
    if k == 0 then 0 else ReadBefore(events, k - 1) + (if events[k - 1].Chunk? then |events[k - 1].data| else 0)
  }

  /** The bytes read before the last progress check before event `k`. */
  function CheckedBefore(events: seq<CopyEvent>, k: nat): nat
    requires k <= |events|
  {
    if k == 0 then 0
    else if events[k - 1].ProgressTimer? then ReadBefore(events, k - 1)
    else CheckedBefore(events, k - 1)
  }

  /** A read that the disk takes whole and that stays within the limit. */
  predicate IsTaken(events: seq<CopyEvent>, k: nat, limit: int)
    requires k < |events|
  {
    var e := events[k];
    e.Chunk? && e.accepted >= |e.data| && (|e.data| > 0 ==> ReadBefore(events, k) + |e.data| <= limit)
  }

  /** The copy goes on behind this event: a read with more to come, or a progress check with enough read since the last. */
  predicate GoesOn(events: seq<CopyEvent>, k: nat, limit: int, pace: int)
    requires k < |events|
  {
    || (IsTaken(events, k, limit) && events[k].end == More)
    || (events[k].ProgressTimer? && ReadBefore(events, k) - CheckedBefore(events, k) >= pace)
  }

  /** The body ends properly at read `n`, and everything before goes on. */
  predicate EndsAt(events: seq<CopyEvent>, from: nat, n: nat, limit: int, pace: int) {
    && from <= n < |events| && IsTaken(events, n, limit) && events[n].end == Eof
    && forall k :: from <= k < n ==> GoesOn(events, k, limit, pace)
  }

  ghost predicate ArrivesFrom(events: seq<CopyEvent>, from: nat, limit: int, pace: int) {
    exists n: nat :: EndsAt(events, from, n, limit, pace)
  }

  ghost predicate Arrives(events: seq<CopyEvent>, limit: int, pace: int) {
    ArrivesFrom(events, 0, limit, pace)
  }

  /** The bytes between two progress checks: a quarter of a short announced length, else 128 KiB. */
  function Pace(announced: int): int {
    if 0 < announced < 4 then 1 else if 4 <= announced < 0x8_0000 then announced / 4 else 0x2_0000
  }

  lemma PaceIs(announced: int)
    ensures Pace(announced) == Threshold(announced)
  {
  }

  lemma {:induction false} CopyArrivesIff(events: seq<CopyEvent>, i: nat, limit: int, pace: int)
    requires i <= |events|
    ensures Copy(events[i..], limit, pace, ReadBefore(events, i), CheckedBefore(events, i)).ok
       <==> ArrivesFrom(events, i, limit, pace)
    decreases |events| - i
  {
    if i < |events| {
      CopyArrivesIff(events, i + 1, limit, pace);
      OneEventOn(events, i, limit, pace);
      CopyOneEvent(events, i, limit, pace);
    }
  }

  lemma CopyOneEvent(events: seq<CopyEvent>, i: nat, limit: int, pace: int)
    requires i < |events|
    ensures Copy(events[i..], limit, pace, ReadBefore(events, i), CheckedBefore(events, i)).ok
       <==> (IsTaken(events, i, limit) && events[i].end == Eof)
            || (GoesOn(events, i, limit, pace)
                && Copy(events[i + 1..], limit, pace, ReadBefore(events, i + 1), CheckedBefore(events, i + 1)).ok)
  {
    assert events[i..][0] == events[i] && events[i..][1..] == events[i + 1..];
  }

  lemma OneEventOn(events: seq<CopyEvent>, i: nat, limit: int, pace: int)
    requires i < |events|
    ensures ArrivesFrom(events, i, limit, pace)
       <==> (IsTaken(events, i, limit) && events[i].end == Eof)
            || (GoesOn(events, i, limit, pace) && ArrivesFrom(events, i + 1, limit, pace))
  {
    if n: nat :| EndsAt(events, i, n, limit, pace) {
      if n > i {
        assert EndsAt(events, i + 1, n, limit, pace);
      }
    }
    if IsTaken(events, i, limit) && events[i].end == Eof {
      assert EndsAt(events, i, i, limit, pace);
    }
    if GoesOn(events, i, limit, pace) && ArrivesFrom(events, i + 1, limit, pace) {
      var n: nat :| EndsAt(events, i + 1, n, limit, pace);
      assert EndsAt(events, i, n, limit, pace);
    }
  }

  /** A copy succeeds exactly when its body arrives, and has then everything that was delivered. */
  lemma CopySucceedsIff(events: seq<CopyEvent>, limit: int, announced: int)
    ensures var r := Copy(events, limit, Threshold(announced), 0, 0);
            && (r.ok <==> Arrives(events, limit, Pace(announced)))
            && (r.ok ==> r.data == Delivered(events))
  {
    PaceIs(announced);
    assert events[0..] == events;
    CopyArrivesIff(events, 0, limit, Pace(announced));
    CopyIsAPrefix(events, limit, Threshold(announced), 0, 0);
  }

  // ------------------------------------------------------------------ the attempt

  /** The response continues the file at its end. */
  predicate Continues(p: Progress, r: Response) {
    r.Response? && p.offset > 0 && r.status == 206
  }

  /** The length the file will have, or a number that is not positive when it is not known. */
  function Total(p: Progress, r: Response): int
    requires r.Response? && (Continues(p, r) ==> r.contentRange.Some?)
  {
    if Continues(p, r) then r.contentRange.value.2 else r.contentLength
  }

  /** A response with a body that is read: a range, if it has one, starts at the end of the file, and it is not too long. */
  predicate IsRead(p: Progress, r: Response) {
    && r.Response? && 200 <= r.status <= 299
    && (Continues(p, r) ==>
          && r.contentRange.Some? && r.contentRange.value.0 == p.offset
          && r.contentRange.value.0 <= r.contentRange.value.1 < r.contentRange.value.2)
    && Total(p, r) <= 256 * 1024 * 1024
  }

  predicate HasFile(env: Env, attempt: nat, p: Progress) {
    (p.file.Some? || env.createsTemp(attempt)) && env.opensFile(attempt)
  }

  /** The bytes of the file when the whole body is in it. */
  function WholeFile(p: Progress, r: Response): seq<byte>
    requires r.Response?
  {
    (if Continues(p, r) && p.file.Some? then p.file.value else []) + Delivered(r.body)
  }

  /** The body arrives within the limit, the connection closes well, and the file has the length it should have. */
  ghost predicate IsComplete(p: Progress, r: Response)
    requires IsRead(p, r) && Accounted(p)
  {
    && Arrives(r.body, 256 * 1024 * 1024 + 1 - (if Continues(p, r) then p.offset else 0), Pace(r.contentLength))
    && r.closes
    && (Total(p, r) > 0 ==> |WholeFile(p, r)| == Total(p, r))
  }

  /** The server says that the file is already whole. */
  predicate IsWhole(p: Progress, r: Response) {
    r.Response? && r.status == 416 && p.offset > 0 && r.unsatisfiedRange == Some(p.offset)
  }

  predicate MayRepeat(env: Env, attempt: nat, offset: nat) {
    attempt < (if offset > 0 then 12 else 2) && !env.cancelled(attempt)
  }

  lemma PreparedIff(p: Progress, r: Response)
    requires r.Response? && 200 <= r.status < 300
    ensures var w := WithValidators(p, r);
            && (Prepare(w, r).Some? <==> IsRead(p, r))
            && (IsRead(p, r) ==> Prepare(w, r) == Some(w.(total := Total(p, r), offset := if Continues(p, r) then p.offset else 0)))
  {
  }

  /** What is in the file behind a read response. */
  lemma StoredIs(p: Progress, r: Response)
    requires IsRead(p, r) && Accounted(p)
    ensures var w := WithValidators(p, r);
            var q := Prepare(w, r).value;
            var copied := Copy(r.body, MAX_BYTES + 1 - q.offset, Threshold(r.contentLength), 0, 0);
            var s := Store(w, q, copied.data);
            && Prepare(w, r).Some? && s.total == Total(p, r)
            && (copied.ok <==> Arrives(r.body, MAX_BYTES + 1 - (if Continues(p, r) then p.offset else 0), Pace(r.contentLength)))
            && (copied.ok ==> s.file == Some(WholeFile(p, r)) && s.offset == |WholeFile(p, r)|)
            && s.etag == FirstNonEmpty(r.etag, p.etag) && s.lastModified == FirstNonEmpty(r.lastModified, p.lastModified)
  {
    PreparedIff(p, r);
    var q := Prepare(WithValidators(p, r), r).value;
    CopySucceedsIff(r.body, MAX_BYTES + 1 - q.offset, r.contentLength);
  }

  lemma ReadIsJudged(env: Env, attempt: nat, p: Progress, r: Response)
    requires IsRead(p, r) && Accounted(p)
    ensures var v := Receive(env, attempt, WithValidators(p, r), r);
            && (v.Success? <==> HasFile(env, attempt, p) && IsComplete(p, r) && 0 < |WholeFile(p, r)| <= MAX_BYTES)
            && (v.Success? ==>
                  && v.p.file == Some(WholeFile(p, r))
                  && v.p.etag == FirstNonEmpty(r.etag, p.etag) && v.p.lastModified == FirstNonEmpty(r.lastModified, p.lastModified))
            && (v.Again? <==> HasFile(env, attempt, p) && !IsComplete(p, r) && MayRepeat(env, attempt, v.p.offset))
            && !v.Unchanged?
  {
    StoredIs(p, r);
    var w := WithValidators(p, r);
    var q := Prepare(w, r).value;
    var copied := Copy(r.body, MAX_BYTES + 1 - q.offset, Threshold(r.contentLength), 0, 0);
    var s, ok := Store(w, q, copied.data), copied.ok && r.closes;
    CopiedIsJudged(env, attempt, w, r, q, s, ok);
    JudgeIs(env, attempt, s, ok);
  }

  lemma JudgeIs(env: Env, attempt: nat, s: Progress, ok: bool)
    ensures var v := Judge(env, attempt, s, ok);
            var complete := ok && (s.total > 0 ==> s.offset == s.total);
            && v.p == s && !v.Unchanged?
            && (v.Success? <==> complete && 0 < s.offset <= MAX_BYTES)
            && (v.Again? <==> !complete && MayRepeat(env, attempt, s.offset))
  {
  }

  /**
   An attempt succeeds if and only if the file was already whole, or a response that is read arrives complete, is not empty
   and not too long; then the file is the old bytes it continues and everything delivered. It is repeated if and only if
   there was no response or its body did not arrive complete, and a repetition is allowed. 304 alone means unchanged.
   */
  lemma AttemptVerdict(env: Env, attempt: nat, p: Progress)
    requires Accounted(p)
    ensures var r := env.server(attempt, RequestFor(p));
            var v := AttemptOnce(env, attempt, p);
            && (v.Success? <==>
                  || IsWhole(p, r)
                  || (IsRead(p, r) && HasFile(env, attempt, p) && IsComplete(p, r) && 0 < |WholeFile(p, r)| <= 256 * 1024 * 1024))
            && (v.Success? ==> v.p.file == if IsWhole(p, r) then p.file else Some(WholeFile(p, r)))
            && (v.Again? <==>
                  && (r.NetworkError? || (IsRead(p, r) && HasFile(env, attempt, p) && !IsComplete(p, r)))
                  && MayRepeat(env, attempt, v.p.offset))
            && (v.Unchanged? <==> r.Response? && r.status == 304)
  {
    var r := env.server(attempt, RequestFor(p));
    if r.Response? && 200 <= r.status < 300 {
      PreparedIff(p, r);
      if IsRead(p, r) {
        ReadIsJudged(env, attempt, p, r);
      }
    }
  }

  // ------------------------------------------------------------------ the whole download

  /** A first response that is read and arrives complete is the download. */
  lemma CompleteAnswerIsDownloaded(env: Env)
    requires var r := env.server(1, RequestFor(NOTHING));
             IsRead(NOTHING, r) && HasFile(env, 1, NOTHING) && IsComplete(NOTHING, r) && 0 < |Delivered(r.body)| <= 256 * 1024 * 1024
    ensures var (outcome, last) := Ends(env, 1, NOTHING);
            outcome == Downloaded && last.file == Some(Delivered(env.server(1, RequestFor(NOTHING)).body))
  {
    AttemptVerdict(env, 1, NOTHING);
    var r := env.server(1, RequestFor(NOTHING));
    assert [] + Delivered(r.body) == Delivered(r.body);
  }

  /** The attempts go on exactly while they may be repeated, and the first other verdict is the download's. */
  lemma FirstVerdictEnds(env: Env, attempt: nat, p: Progress)
    requires Accounted(p) && attempt <= RESUME_ATTEMPTS
    ensures var v := AttemptOnce(env, attempt, p);
            && (v.Again? ==> attempt < RESUME_ATTEMPTS && Accounted(v.p) && Ends(env, attempt, p) == Ends(env, attempt + 1, v.p))
            && (v.Success? ==> Ends(env, attempt, p) == (Downloaded, v.p))
            && (v.Unchanged? ==> Ends(env, attempt, p).0 == NotModified)
            && (v.Failed? ==> Ends(env, attempt, p).0 == Error)
  {
    AttemptAccounts(env, attempt, p);
  }
}
