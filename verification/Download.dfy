/**
 The resumable download of core/internal/server/ip_geo_sources.go: `downloadIPGeoURL` and the copy loop
 `copyIPGeoResponse`. The server, the disk and the context are functions that may answer anything;
 what an honest server answers is stated separately.
 */
module Download {
  import opened Wrappers

  const MAX_BYTES := 256 * 1024 * 1024
  const MIN_PROGRESS := 128 * 1024
  const RESUME_ATTEMPTS := 12
  const CONNECT_ATTEMPTS := 2

  // ------------------------------------------------------------------ copying one body

  datatype ReadEnd = More | Eof | Broken

  const BUFFER := 256 * 1024

  /** What one read can return. */
  type Piece = s: seq<byte> | |s| <= BUFFER

  /** What the copy loop's `select` sees: a read, of which the disk accepts some bytes, or one of its two timers. */
  datatype CopyEvent = Chunk(data: Piece, end: ReadEnd, accepted: nat) | IdleTimer | ProgressTimer

  datatype Copied = Copied(data: seq<byte>, ok: bool)

  function Threshold(expectedBytes: int): int {
    if 0 < expectedBytes < MIN_PROGRESS * 4 then (if expectedBytes / 4 < 1 then 1 else expectedBytes / 4) else MIN_PROGRESS
  }

  /** What ends up in the file, with `written` bytes before. Running out of events is a read that never returns. */
  function Copy(events: seq<CopyEvent>, maxBytes: int, threshold: int, written: nat, windowStart: int): Copied
    decreases |events|
  {
    if events == [] then Copied([], false)
    else
      match events[0]
      case IdleTimer => Copied([], false)
      case ProgressTimer =>
        if written - windowStart < threshold then Copied([], false)
        else Copy(events[1..], maxBytes, threshold, written, written)
      case Chunk(data, end, accepted) =>
        if |data| > 0 && written + |data| > maxBytes then Copied([], false)
        else if accepted < |data| then Copied(data[..accepted], false)
        else if end == Eof then Copied(data, true)
        else if end == Broken then Copied(data, false)
        else
          After(data, Copy(events[1..], maxBytes, threshold, written + |data|, windowStart))
  }

  method CopyResponse(events: seq<CopyEvent>, maxBytes: int, expectedBytes: int) returns (r: Copied)
    ensures r == Copy(events, maxBytes, Threshold(expectedBytes), 0, 0)
  {
    var threshold := Threshold(expectedBytes);
    var file: seq<byte> := [];
    var windowStart := 0;
    ghost var goal := Copy(events, maxBytes, threshold, 0, 0);
    assert events[0..] == events;
    assert goal == After(file, goal);
    for i := 0 to |events|
      invariant goal == After(file, Copy(events[i..], maxBytes, threshold, |file|, windowStart))
    {
      assert events[i..][0] == events[i] && events[i..][1..] == events[i + 1..];
      match events[i] {
        case IdleTimer =>
          return Copied(file, false);
        case ProgressTimer =>
          if |file| - windowStart < threshold {
            return Copied(file, false);
          }
          windowStart := |file|;
        case Chunk(data, end, accepted) =>
          if |data| > 0 && |file| + |data| > maxBytes {
            return Copied(file, false);
          }
          if accepted < |data| {
            return Copied(file + data[..accepted], false);
          }
          if end != More {
            return Copied(file + data, end == Eof);
          }
          AfterTwice(file, data, Copy(events[i + 1..], maxBytes, threshold, |file| + |data|, windowStart));
          file := file + data;
      }
    }
    return Copied(file, false);
  }

  /** The copy that continues after these bytes. */
  function After(file: seq<byte>, rest: Copied): Copied {
    Copied(file + rest.data, rest.ok)
  }

  lemma AfterTwice(file: seq<byte>, data: seq<byte>, rest: Copied)
    ensures After(file, After(data, rest)) == After(file + data, rest)
  {
  }

  /** The bytes a body delivers, up to the read that ends it. */
  function Delivered(events: seq<CopyEvent>): seq<byte>
    decreases |events|
  {
    if events == [] then []
    else if !events[0].Chunk? then Delivered(events[1..])
    else events[0].data + (if events[0].end == More then Delivered(events[1..]) else [])
  }

  /** The copy is ordered and bounded: a prefix of what was delivered, never more than `maxBytes`, all of it on success. */
  lemma {:induction false} CopyIsAPrefix(events: seq<CopyEvent>, maxBytes: int, threshold: int, written: nat, windowStart: int)
    ensures var r := Copy(events, maxBytes, threshold, written, windowStart);
            && r.data <= Delivered(events)
            && (r.data != [] ==> written + |r.data| <= maxBytes)
            && (r.ok ==> r.data == Delivered(events))
    decreases |events|
  {
    if events != [] {
      match events[0]
      case IdleTimer =>
      case ProgressTimer => CopyIsAPrefix(events[1..], maxBytes, threshold, written, written);
      case Chunk(data, end, accepted) =>
        if accepted >= |data| && end == More {
          CopyIsAPrefix(events[1..], maxBytes, threshold, written + |data|, windowStart);
        }
    }
  }

  /** A body that arrives in full buffers, the last read ending it. */
  function Feed(data: seq<byte>, end: ReadEnd): seq<CopyEvent>
    decreases |data|
  {
    if |data| <= BUFFER then [Chunk(data, end, |data|)]
    else [Chunk(data[..BUFFER], More, BUFFER)] + Feed(data[BUFFER..], end)
  }

  lemma {:induction false} FeedDelivers(data: seq<byte>, end: ReadEnd)
    requires end != More
    ensures Delivered(Feed(data, end)) == data
    decreases |data|
  {
    if |data| > BUFFER {
      FeedDelivers(data[BUFFER..], end);
      assert data[..BUFFER] + data[BUFFER..] == data;
    }
  }

  lemma {:induction false} FeedIsCopied(data: seq<byte>, end: ReadEnd, maxBytes: int, threshold: int, written: nat,
                                        windowStart: int)
    requires end != More && written + |data| <= maxBytes
    ensures Copy(Feed(data, end), maxBytes, threshold, written, windowStart) == Copied(data, end == Eof)
    decreases |data|
  {
    if |data| > BUFFER {
      FeedIsCopied(data[BUFFER..], end, maxBytes, threshold, written + BUFFER, windowStart);
      FirstPieceIsCopied(data, end, maxBytes, threshold, written, windowStart);
      assert data[..BUFFER] + data[BUFFER..] == data;
    }
  }

  lemma FirstPieceIsCopied(data: seq<byte>, end: ReadEnd, maxBytes: int, threshold: int, written: nat, windowStart: int)
    requires |data| > BUFFER && written + |data| <= maxBytes
    ensures Copy(Feed(data, end), maxBytes, threshold, written, windowStart)
         == After(data[..BUFFER], Copy(Feed(data[BUFFER..], end), maxBytes, threshold, written + BUFFER, windowStart))
  {
    var events := Feed(data, end);
    assert events[0] == Chunk(data[..BUFFER], More, BUFFER) && events[1..] == Feed(data[BUFFER..], end);
  }

  // ------------------------------------------------------------------ one attempt

  /** `offset` zero means no Range header; `ifRange` is empty when there is no validator. */
  datatype Request = Request(offset: nat, ifRange: string)

  /** The headers of interest; the two range headers as read by `Sscanf`, `None` where it fails. */
  datatype Response =
    | NetworkError
    | Response(status: int, etag: string, lastModified: string, contentLength: int,
               contentRange: Option<(int, int, int)>, unsatisfiedRange: Option<int>,
               body: seq<CopyEvent>, closes: bool)

  datatype Env = Env(
    server: (nat, Request) -> Response,
    cancelled: nat -> bool,      // the context ends before or during the delay after this attempt
    createsTemp: nat -> bool,
    opensFile: nat -> bool)

  /** The variables of `downloadIPGeoURL`; `file` is the temporary file, once there is one. */
  datatype Progress = Progress(file: Option<seq<byte>>, offset: nat, total: int, etag: string, lastModified: string)

  datatype Verdict = Again(p: Progress) | Success(p: Progress) | Unchanged(p: Progress) | Failed(p: Progress)

  function FirstNonEmpty(a: string, b: string): string {
    if a != "" then a else b
  }

  function RequestFor(p: Progress): Request {
    if p.offset > 0 then Request(p.offset, FirstNonEmpty(p.etag, p.lastModified)) else Request(0, "")
  }

  function ShouldRetry(env: Env, attempt: nat, offset: nat): bool {
    attempt < (if offset > 0 then RESUME_ATTEMPTS else CONNECT_ATTEMPTS) && !env.cancelled(attempt)
  }

  function RetryOrFail(env: Env, attempt: nat, p: Progress): Verdict {
    if ShouldRetry(env, attempt, p.offset) then Again(p) else Failed(p)
  }

  predicate ValidContentRange(r: (int, int, int)) {
    r.0 >= 0 && r.1 >= r.0 && r.2 > r.1
  }

  /** The validators after a response's headers were read. */
  function WithValidators(p: Progress, r: Response): Progress
    requires r.Response?
  {
    p.(etag := FirstNonEmpty(r.etag, p.etag), lastModified := FirstNonEmpty(r.lastModified, p.lastModified))
  }

  /** The file and offset that the copy starts from, and the expected total; `None` is an error. */
  function Prepare(p: Progress, r: Response): Option<Progress>
    requires r.Response?
  {
    var partial := p.offset > 0 && r.status == 206;
    if partial && (r.contentRange.None? || !ValidContentRange(r.contentRange.value) || r.contentRange.value.0 != p.offset) then None
    else
      var total := if partial then r.contentRange.value.2 else r.contentLength;
      if total > MAX_BYTES then None
      else Some(p.(total := total, offset := if partial then p.offset else 0))
  }

  /** The file after the copy, appended to or written anew. */
  function Store(p: Progress, q: Progress, data: seq<byte>): Progress {
    var kept := if q.offset > 0 && p.file.Some? then p.file.value else [];
    q.(file := Some(kept + data), offset := q.offset + |data|)
  }

  /** What `Receive` answers once the body was copied and stored. */
  function Judge(env: Env, attempt: nat, s: Progress, ok: bool): Verdict {
    if ok && !(s.total > 0 && s.offset != s.total) then
      if s.offset == 0 || s.offset > MAX_BYTES then Failed(s) else Success(s)
    else RetryOrFail(env, attempt, s)
  }

  function Receive(env: Env, attempt: nat, p: Progress, r: Response): Verdict
    requires r.Response?
  {
    match Prepare(p, r)
    case None => Failed(p)
    case Some(q) =>
      if (p.file.None? && !env.createsTemp(attempt)) || !env.opensFile(attempt) then Failed(q)
      else
        var copied := Copy(r.body, MAX_BYTES + 1 - q.offset, Threshold(r.contentLength), 0, 0);
        Judge(env, attempt, Store(p, q, copied.data), copied.ok && r.closes)
  }

  /** One turn of the loop of `downloadIPGeoURL`. */
  function AttemptOnce(env: Env, attempt: nat, before: Progress): Verdict {
    match env.server(attempt, RequestFor(before))
    case NetworkError => RetryOrFail(env, attempt, before)
    case Response(status, etag, lastModified, contentLength, contentRange, unsatisfied, body, closes) =>
      var r := Response(status, etag, lastModified, contentLength, contentRange, unsatisfied, body, closes);
      var p := WithValidators(before, r);
      if status == 304 then Unchanged(p)
      else if status == 416 && p.offset > 0 then
        if unsatisfied == Some(p.offset) then Success(p) else Failed(p)
      else if status < 200 || status >= 300 then Failed(p)
      else Receive(env, attempt, p, r)
  }

  // ------------------------------------------------------------------ honest servers

  /** One version of the file on the server; `etag` is a strong validator. */
  datatype Representation = Representation(content: seq<byte>, etag: string)

  /**
   What RFC 9110 allows while `rep` is the current version: a range only when `If-Range` is absent or still
   matches (section 13.1.5), a truthful `Content-Range` (sections 14.4 and 15.5.17), and no other version's
   `ETag`. Bodies may break off anywhere.
   */
  ghost predicate HonestResponse(rep: Representation, q: Request, r: Response) {
    r.Response? ==>
      && (r.status == 206 ==> q.offset > 0 && (q.ifRange == "" || q.ifRange == rep.etag))
      && (r.status == 206 && r.contentRange.Some? && ValidContentRange(r.contentRange.value) ==>
            var (start, end, total) := r.contentRange.value;
            total == |rep.content| && Delivered(r.body) <= rep.content[start..end + 1])
      && (200 <= r.status < 300 ==> r.etag == "" || r.etag == rep.etag)
      && (200 <= r.status < 300 && r.status != 206 ==>
            Delivered(r.body) <= rep.content && (r.contentLength == |rep.content| || r.contentLength == -1))
      && (r.status == 416 ==>
            && (q.ifRange == "" || q.ifRange == rep.etag) && (r.etag == "" || r.etag == rep.etag)
            && (r.unsatisfiedRange.Some? ==> r.unsatisfiedRange.value == |rep.content|))
  }

  /** The version served may change between any two attempts; equal strong validators mean equal contents. */
  ghost predicate Honest(env: Env, reps: nat -> Representation) {
    && (forall a :: reps(a).etag != "")
    && (forall a, b :: reps(a).etag == reps(b).etag ==> reps(a).content == reps(b).content)
    && (forall a: nat, q: Request :: HonestResponse(reps(a), q, env.server(a, q)))
  }

  /** A response that starts the file anew. */
  predicate Restarts(q: Request, r: Response) {
    r.Response? && 200 <= r.status < 300 && !(r.status == 206 && q.offset > 0)
  }

  /** Every response of the log that started the file anew carried its version's validator. */
  ghost predicate RestartsCarryValidators(env: Env, requests: seq<Request>) {
    forall k :: 0 <= k < |requests| ==> CarriesValidator(env, k + 1, requests[k])
  }

  ghost predicate CarriesValidator(env: Env, attempt: nat, q: Request) {
    Restarts(q, env.server(attempt, q)) ==> env.server(attempt, q).etag != ""
  }

  /** The file holds `offset` bytes. */
  predicate Accounted(p: Progress) {
    && (p.offset > 0 ==> p.file.Some? && |p.file.value| == p.offset)
    && p.offset <= MAX_BYTES + 1
  }

  /** The file is a prefix of the version whose validator would go into `If-Range`. */
  ghost predicate OneVersion(reps: nat -> Representation, v: nat, p: Progress) {
    p.offset > 0 ==> p.file.Some? && p.etag == reps(v).etag && p.file.value <= reps(v).content
  }

  predicate EndsUnsatisfied(r: Response) {
    r.Response? && r.status == 416
  }

  lemma StoredAccounts(p: Progress, q: Progress, data: seq<byte>)
    requires Accounted(p) && (q.offset == p.offset || q.offset == 0) && q.offset <= MAX_BYTES + 1
    requires data != [] ==> q.offset + |data| <= MAX_BYTES + 1
    ensures Accounted(Store(p, q, data))
  {
  }

  lemma StoreAccounts(p: Progress, r: Response, q: Progress)
    requires Accounted(p) && r.Response? && Prepare(p, r) == Some(q)
    ensures var copied := Copy(r.body, MAX_BYTES + 1 - q.offset, Threshold(r.contentLength), 0, 0);
            Accounted(Store(p, q, copied.data))
  {
    CopyIsAPrefix(r.body, MAX_BYTES + 1 - q.offset, Threshold(r.contentLength), 0, 0);
    StoredAccounts(p, q, Copy(r.body, MAX_BYTES + 1 - q.offset, Threshold(r.contentLength), 0, 0).data);
  }

  lemma JudgeAccounts(env: Env, attempt: nat, s: Progress, ok: bool)
    requires Accounted(s)
    ensures var v := Judge(env, attempt, s, ok);
            && v.p == s
            && (v.Success? ==> 0 < s.offset <= MAX_BYTES)
            && (v.Again? ==> ShouldRetry(env, attempt, s.offset))
            && !v.Unchanged?
  {
  }

  lemma ReceiveAccounts(env: Env, attempt: nat, p: Progress, r: Response)
    requires Accounted(p) && r.Response?
    ensures var v := Receive(env, attempt, p, r);
            && Accounted(v.p)
            && (v.Success? ==> 0 < v.p.offset <= MAX_BYTES)
            && (v.Again? ==> ShouldRetry(env, attempt, v.p.offset))
  {
    if Prepare(p, r).Some? {
      var q := Prepare(p, r).value;
      PrepareAccounts(p, r, q);
      StoreAccounts(p, r, q);
      var copied := Copy(r.body, MAX_BYTES + 1 - q.offset, Threshold(r.contentLength), 0, 0);
      JudgeAccounts(env, attempt, Store(p, q, copied.data), copied.ok && r.closes);
    }
  }

  lemma PrepareAccounts(p: Progress, r: Response, q: Progress)
    requires Accounted(p) && r.Response? && Prepare(p, r) == Some(q)
    ensures Accounted(q)
  {
  }

  /**
   Whatever the server does, the file and the offset agree and a success is not empty. It is within the size
   limit unless the copy had already stopped one byte past the limit and the server then answers 416: the
   source checks the limit after a copy, but not on that path.
   */
  lemma AttemptAccounts(env: Env, attempt: nat, p: Progress)
    requires Accounted(p)
    ensures var v := AttemptOnce(env, attempt, p);
            && Accounted(v.p)
            && (v.Success? ==> v.p.offset > 0)
            && (v.Success? ==>
                  (v.p.offset > MAX_BYTES
                   <==> p.offset == MAX_BYTES + 1 && EndsUnsatisfied(env.server(attempt, RequestFor(p)))))
            && (v.Again? ==> attempt < RESUME_ATTEMPTS && (v.p.offset == 0 ==> attempt < CONNECT_ATTEMPTS))
  {
    var r := env.server(attempt, RequestFor(p));
    if r.Response? && 200 <= r.status < 300 {
      ReceiveAccounts(env, attempt, WithValidators(p, r), r);
    }
  }

  /** The copied bytes continue the file with bytes of the current version. */
  lemma StoreKeepsOneVersion(reps: nat -> Representation, v: nat, a: nat, p: Progress, w: Progress, r: Response, q: Progress)
    requires Accounted(p) && OneVersion(reps, v, p)
    requires forall b :: reps(b).etag != ""
    requires forall b, c :: reps(b).etag == reps(c).etag ==> reps(b).content == reps(c).content
    requires r.Response? && 200 <= r.status < 300 && HonestResponse(reps(a), RequestFor(p), r)
    requires w == WithValidators(p, r) && Prepare(w, r) == Some(q)
    requires q.offset == 0 ==> r.etag != ""
    ensures var copied := Copy(r.body, MAX_BYTES + 1 - q.offset, Threshold(r.contentLength), 0, 0);
            var s := Store(w, q, copied.data);
            && s.file.value <= reps(a).content && s.etag == reps(a).etag
            && (s.total > 0 ==> s.total == |reps(a).content|)
  {
    var copied := Copy(r.body, MAX_BYTES + 1 - q.offset, Threshold(r.contentLength), 0, 0);
    CopyIsAPrefix(r.body, MAX_BYTES + 1 - q.offset, Threshold(r.contentLength), 0, 0);
    var content := reps(a).content;
    if q.offset > 0 {
      var (start, end, total) := r.contentRange.value;
      assert RequestFor(p).ifRange == reps(v).etag;
      assert content == reps(v).content && start == p.offset;
      assert copied.data <= content[start..end + 1];
      PrefixExtends(content, p.file.value, copied.data, end + 1);
    }
  }

  lemma PrefixExtends(content: seq<byte>, a: seq<byte>, b: seq<byte>, end: nat)
    requires a <= content && |a| <= end <= |content| && b <= content[|a|..end]
    ensures a + b <= content
  {
  }

  lemma WholePrefix(a: seq<byte>, content: seq<byte>)
    requires a <= content
    ensures |a| == |content| ==> a == content
  {
  }

  /**
   Why that response needs its validator: a restart leaves bytes of the current version, and they are filed
   under that version exactly when it sent its validator or had the one known before.
   */
  lemma RestartIsFiledIff(reps: nat -> Representation, a: nat, p: Progress, r: Response, q: Progress)
    requires Accounted(p) && reps(a).etag != "" && Restarts(RequestFor(p), r) && HonestResponse(reps(a), RequestFor(p), r)
    requires Prepare(WithValidators(p, r), r) == Some(q)
    ensures var copied := Copy(r.body, MAX_BYTES + 1 - q.offset, Threshold(r.contentLength), 0, 0);
            var s := Store(WithValidators(p, r), q, copied.data);
            && s.file.value <= reps(a).content
            && (s.offset > 0 ==> (OneVersion(reps, a, s) <==> r.etag != "" || p.etag == reps(a).etag))
  {
    CopyIsAPrefix(r.body, MAX_BYTES + 1 - q.offset, Threshold(r.contentLength), 0, 0);
  }

  /**
   Against an honest server no attempt ever splices two versions, and a success whose length was announced
   is one whole version, provided that a response that starts the file anew carries its validator.
   */
  lemma HonestAttempt(env: Env, reps: nat -> Representation, attempt: nat, p: Progress, v: nat) returns (v': nat)
    requires Honest(env, reps) && Accounted(p) && OneVersion(reps, v, p) && CarriesValidator(env, attempt, RequestFor(p))
    ensures var verdict := AttemptOnce(env, attempt, p);
            && (verdict.Again? || verdict.Success? ==> OneVersion(reps, v', verdict.p))
            && (verdict.Success? && (verdict.p.total > 0 || env.server(attempt, RequestFor(p)).status == 416) ==>
                  verdict.p.file == Some(reps(v').content))
  {
    var r := env.server(attempt, RequestFor(p));
    v' := v;
    assert HonestResponse(reps(attempt), RequestFor(p), r);
    if r.Response? && 200 <= r.status < 300 {
      v' := attempt;
      HonestSuccess(env, reps, attempt, p, v, r);
    } else if r.Response? && r.status == 416 && p.offset > 0 {
      v' := attempt;
      HonestUnsatisfied(reps, attempt, p, v, r);
    }
  }

  lemma HonestSuccess(env: Env, reps: nat -> Representation, attempt: nat, p: Progress, v: nat, r: Response)
    requires Honest(env, reps) && Accounted(p) && OneVersion(reps, v, p) && CarriesValidator(env, attempt, RequestFor(p))
    requires r == env.server(attempt, RequestFor(p)) && r.Response? && 200 <= r.status < 300
    ensures var verdict := Receive(env, attempt, WithValidators(p, r), r);
            && (verdict.Again? || verdict.Success? ==> OneVersion(reps, attempt, verdict.p))
            && (verdict.Success? && verdict.p.total > 0 ==> verdict.p.file == Some(reps(attempt).content))
  {
    var w := WithValidators(p, r);
    var prepared := Prepare(w, r);
    if prepared.Some? {
      var q := prepared.value;
      var s, ok := HonestStore(env, reps, attempt, p, v, r, w, q);
      CopiedIsJudged(env, attempt, w, r, q, s, ok);
      JudgedVersion(env, reps, attempt, s, ok);
    }
  }

  /** What is stored of an honest response is a prefix of the current version, filed under it. */
  lemma HonestStore(env: Env, reps: nat -> Representation, attempt: nat, p: Progress, v: nat, r: Response, w: Progress,
                    q: Progress)
    returns (s: Progress, ok: bool)
    requires Honest(env, reps) && Accounted(p) && OneVersion(reps, v, p) && CarriesValidator(env, attempt, RequestFor(p))
    requires r == env.server(attempt, RequestFor(p)) && r.Response? && 200 <= r.status < 300
    requires w == WithValidators(p, r) && Prepare(w, r) == Some(q)
    ensures IsStored(w, r, q, s, ok) && Accounted(s)
    ensures s.file.Some? && s.file.value <= reps(attempt).content && s.etag == reps(attempt).etag
    ensures s.total > 0 ==> s.total == |reps(attempt).content|
  {
    assert HonestResponse(reps(attempt), RequestFor(p), r);
    assert q.offset == 0 ==> r.etag != "";
    StoreKeepsOneVersion(reps, v, attempt, p, w, r, q);
    StoreAccounts(w, r, q);
    var copied := Copy(r.body, MAX_BYTES + 1 - q.offset, Threshold(r.contentLength), 0, 0);
    s, ok := Store(w, q, copied.data), copied.ok && r.closes;
  }

  /** The file and the outcome of copying a prepared response. */
  predicate IsStored(p: Progress, r: Response, q: Progress, s: Progress, ok: bool)
    requires r.Response?
  {
    var copied := Copy(r.body, MAX_BYTES + 1 - q.offset, Threshold(r.contentLength), 0, 0);
    s == Store(p, q, copied.data) && (ok <==> copied.ok && r.closes)
  }

  lemma CopiedIsJudged(env: Env, attempt: nat, p: Progress, r: Response, q: Progress, s: Progress, ok: bool)
    requires r.Response? && Prepare(p, r) == Some(q) && IsStored(p, r, q, s, ok)
    ensures Receive(env, attempt, p, r)
         == if (p.file.None? && !env.createsTemp(attempt)) || !env.opensFile(attempt) then Failed(q) else Judge(env, attempt, s, ok)
  {
  }

  /** A stored prefix of the current version, filed under it, is judged as one version. */
  lemma JudgedVersion(env: Env, reps: nat -> Representation, attempt: nat, s: Progress, ok: bool)
    requires Accounted(s) && s.file.Some? && s.file.value <= reps(attempt).content && s.etag == reps(attempt).etag
    requires s.total > 0 ==> s.total == |reps(attempt).content|
    ensures var verdict := Judge(env, attempt, s, ok);
            && (verdict.Again? || verdict.Success? ==> OneVersion(reps, attempt, verdict.p))
            && (verdict.Success? && verdict.p.total > 0 ==> verdict.p.file == Some(reps(attempt).content))
  {
    JudgeAccounts(env, attempt, s, ok);
    WholePrefix(s.file.value, reps(attempt).content);
  }

  lemma HonestUnsatisfied(reps: nat -> Representation, attempt: nat, p: Progress, v: nat, r: Response)
    requires forall b :: reps(b).etag != ""
    requires forall b, c :: reps(b).etag == reps(c).etag ==> reps(b).content == reps(c).content
    requires Accounted(p) && OneVersion(reps, v, p) && p.offset > 0
    requires HonestResponse(reps(attempt), RequestFor(p), r) && r.Response? && r.status == 416
    ensures OneVersion(reps, attempt, WithValidators(p, r))
    ensures r.unsatisfiedRange == Some(p.offset) ==> p.file == Some(reps(attempt).content)
  {
    assert reps(attempt).content == reps(v).content;
    WholePrefix(p.file.value, reps(v).content);
  }

  /**
   That the limit can be missed: limit + 1 bytes of unannounced length, a full buffer at a time, broken by the
   last read of one byte; then a 416.
   */
  lemma LimitMissedByOneByte(env: Env, big: seq<byte>)
    requires |big| == MAX_BYTES + 1
    requires env.server(1, Request(0, "")) == Response(200, "v", "", -1, None, None, Feed(big, Broken), true)
    requires env.server(2, Request(MAX_BYTES + 1, "v")) == Response(416, "", "", 0, None, Some(MAX_BYTES + 1), [], true)
    requires env.createsTemp(1) && env.opensFile(1) && !env.cancelled(1)
    ensures var first := AttemptOnce(env, 1, Progress(None, 0, -1, "", ""));
            first.Again? && AttemptOnce(env, 2, first.p).Success? && AttemptOnce(env, 2, first.p).p.file == Some(big)
  {
    var start := Progress(None, 0, -1, "", "");
    BrokenRestart(env, 1, start, Response(200, "v", "", -1, None, None, Feed(big, Broken), true), big);
  }

  /** A full response of unannounced length that breaks off after `data`. */
  lemma BrokenRestart(env: Env, attempt: nat, p: Progress, r: Response, data: seq<byte>)
    requires 0 < |data| <= MAX_BYTES + 1 && attempt < RESUME_ATTEMPTS && !env.cancelled(attempt)
    requires r.Response? && r.status == 200 && r.contentLength == -1 && r.body == Feed(data, Broken)
    requires env.server(attempt, RequestFor(p)) == r
    requires (p.file.None? ==> env.createsTemp(attempt)) && env.opensFile(attempt)
    ensures AttemptOnce(env, attempt, p)
         == Again(Progress(Some(data), |data|, -1, FirstNonEmpty(r.etag, p.etag), FirstNonEmpty(r.lastModified, p.lastModified)))
  {
    var w := WithValidators(p, r);
    assert AttemptOnce(env, attempt, p) == Receive(env, attempt, w, r);
    BrokenIsReceived(env, attempt, w, r, data);
  }

  lemma BrokenIsReceived(env: Env, attempt: nat, w: Progress, r: Response, data: seq<byte>)
    requires 0 < |data| <= MAX_BYTES + 1 && attempt < RESUME_ATTEMPTS && !env.cancelled(attempt)
    requires r.Response? && r.status == 200 && r.contentLength == -1 && r.body == Feed(data, Broken)
    requires (w.file.None? ==> env.createsTemp(attempt)) && env.opensFile(attempt)
    ensures Receive(env, attempt, w, r) == Again(w.(file := Some(data), offset := |data|, total := -1))
  {
    var q := w.(total := -1, offset := 0);
    UnannouncedIsPrepared(w, r);
    BrokenIsCopied(w, r, q, data);
    CopiedIsJudged(env, attempt, w, r, q, Store(w, q, data), false);
    BrokenIsStored(env, attempt, w, data);
  }

  lemma UnannouncedIsPrepared(w: Progress, r: Response)
    requires r.Response? && r.status == 200 && r.contentLength == -1
    ensures Prepare(w, r) == Some(w.(total := -1, offset := 0))
  {
  }

  lemma BrokenIsCopied(w: Progress, r: Response, q: Progress, data: seq<byte>)
    requires |data| <= MAX_BYTES + 1 && r.Response? && r.body == Feed(data, Broken) && q.offset == 0
    ensures IsStored(w, r, q, Store(w, q, data), false)
  {
    FeedIsCopied(data, Broken, MAX_BYTES + 1, Threshold(r.contentLength), 0, 0);
  }

  lemma BrokenIsStored(env: Env, attempt: nat, w: Progress, data: seq<byte>)
    requires 0 < |data| && attempt < RESUME_ATTEMPTS && !env.cancelled(attempt)
    ensures Judge(env, attempt, Store(w, w.(total := -1, offset := 0), data), false)
         == Again(w.(file := Some(data), offset := |data|, total := -1))
  {
    assert [] + data == data;
  }

  /** A partial response at the right offset that completes the file with `tail`. */
  lemma CompletingRange(env: Env, attempt: nat, p: Progress, r: Response, tail: seq<byte>)
    requires Accounted(p) && p.offset > 0 && 0 < |tail| && p.offset + |tail| <= MAX_BYTES && env.opensFile(attempt)
    requires r.Response? && r.status == 206 && r.contentLength == |tail| && r.body == Feed(tail, Eof) && r.closes
    requires r.contentRange == Some((p.offset, p.offset + |tail| - 1, p.offset + |tail|))
    requires env.server(attempt, RequestFor(p)) == r
    ensures AttemptOnce(env, attempt, p).Success? && AttemptOnce(env, attempt, p).p.file == Some(p.file.value + tail)
  {
    var w := WithValidators(p, r);
    RangeIsPrepared(w, r, |tail|);
    FeedIsCopied(tail, Eof, MAX_BYTES + 1 - p.offset, Threshold(|tail|), 0, 0);
    assert AttemptOnce(env, attempt, p) == Receive(env, attempt, w, r);
  }

  lemma RangeIsPrepared(p: Progress, r: Response, n: nat)
    requires r.Response? && r.status == 206 && p.offset > 0 && n > 0 && p.offset + n <= MAX_BYTES
    requires r.contentRange == Some((p.offset, p.offset + n - 1, p.offset + n))
    ensures Prepare(p, r) == Some(p.(total := p.offset + n))
  {
  }

  /** Why a validator is needed: without one, whatever a 206 at the right offset carries completes the file. */
  lemma WithoutValidatorAnyTailIsAccepted(env: Env, attempt: nat, p: Progress, tail: seq<byte>)
    requires Accounted(p) && p.offset > 0 && p.etag == "" && p.lastModified == ""
    requires tail != [] && p.offset + |tail| <= MAX_BYTES && env.opensFile(attempt)
    requires env.server(attempt, Request(p.offset, ""))
          == Response(206, "", "", |tail|, Some((p.offset, p.offset + |tail| - 1, p.offset + |tail|)), None, Feed(tail, Eof), true)
    ensures AttemptOnce(env, attempt, p).Success?
    ensures AttemptOnce(env, attempt, p).p.file == Some(p.file.value + tail)
  {
    CompletingRange(env, attempt, p, env.server(attempt, Request(p.offset, "")), tail);
  }

  /** The three answers of a server that changes its file and changes it back, leaving one validator out. */
  ghost predicate BareRestart(env: Env, a: Representation, b: Representation, m: nat, n: nat) {
    && 0 < m <= |a.content| && 0 < n <= |b.content| && n < |a.content| <= MAX_BYTES && |b.content| <= MAX_BYTES
    && env.server(1, Request(0, "")) == Response(200, a.etag, "", -1, None, None, Feed(a.content[..m], Broken), true)
    && env.server(2, Request(m, a.etag)) == Response(200, "", "", -1, None, None, Feed(b.content[..n], Broken), true)
    && env.server(3, Request(n, a.etag))
       == Response(206, a.etag, "", |a.content| - n, Some((n, |a.content| - 1, |a.content|)), None, Feed(a.content[n..], Eof), true)
  }

  lemma BareRestartIsHonest(env: Env, a: Representation, b: Representation, m: nat, n: nat)
    requires BareRestart(env, a, b, m, n) && a.etag != "" && b.etag != "" && a.etag != b.etag
    ensures HonestResponse(a, Request(0, ""), env.server(1, Request(0, "")))
    ensures HonestResponse(b, Request(m, a.etag), env.server(2, Request(m, a.etag)))
    ensures HonestResponse(a, Request(n, a.etag), env.server(3, Request(n, a.etag)))
  {
    FeedDelivers(a.content[..m], Broken);
    FeedDelivers(b.content[..n], Broken);
    FeedDelivers(a.content[n..], Eof);
    assert a.content[n..] == a.content[n..|a.content| - 1 + 1];
  }

  /** Without that validator the end of one version is appended to the start of another. */
  lemma BareRestartIsSpliced(env: Env, a: Representation, b: Representation, m: nat, n: nat)
    requires BareRestart(env, a, b, m, n) && a.etag != "" && b.etag != "" && a.etag != b.etag
    requires env.createsTemp(1) && forall k :: 1 <= k <= 3 ==> env.opensFile(k) && !env.cancelled(k)
    ensures var first := AttemptOnce(env, 1, Progress(None, 0, -1, "", ""));
            && first.Again?
            && var second := AttemptOnce(env, 2, first.p);
               && second.Again?
               && var third := AttemptOnce(env, 3, second.p);
                  third.Success? && third.p.file == Some(b.content[..n] + a.content[n..])
  {
    var start := Progress(None, 0, -1, "", "");
    BrokenRestart(env, 1, start, env.server(1, Request(0, "")), a.content[..m]);
    var one := Progress(Some(a.content[..m]), m, -1, a.etag, "");
    BrokenRestart(env, 2, one, env.server(2, Request(m, a.etag)), b.content[..n]);
    var two := Progress(Some(b.content[..n]), n, -1, a.etag, "");
    CompletingRange(env, 3, two, env.server(3, Request(n, a.etag)), a.content[n..]);
  }

  // ------------------------------------------------------------------ the whole download

  datatype Outcome = Downloaded | NotModified | Error

  /** The server is honest, and its answers to these requests carry the validators that are needed. */
  ghost predicate Follows(env: Env, reps: nat -> Representation, requests: seq<Request>) {
    Honest(env, reps) && RestartsCarryValidators(env, requests)
  }

  lemma FollowsSoFar(env: Env, reps: nat -> Representation, requests: seq<Request>, q: Request)
    requires Follows(env, reps, requests + [q])
    ensures Follows(env, reps, requests) && CarriesValidator(env, |requests| + 1, q)
  {
    assert (requests + [q])[|requests|] == q;
    forall k | 0 <= k < |requests|
      ensures CarriesValidator(env, k + 1, requests[k])
    {
      assert (requests + [q])[k] == requests[k];
    }
  }

  /** Every request that asks for a range names a validator. */
  predicate RangesAreGuarded(requests: seq<Request>) {
    forall k :: 0 <= k < |requests| && requests[k].offset > 0 ==> requests[k].ifRange != ""
  }

  /** Between two attempts: the file is accounted for and, with an honest server, a prefix of one version. */
  ghost predicate SoFar(env: Env, reps: nat -> Representation, requests: seq<Request>, p: Progress, version: nat) {
    && |requests| < RESUME_ATTEMPTS && Accounted(p)
    && (if requests == [] then p.offset == 0 else requests[0] == Request(0, ""))
    && (Follows(env, reps, requests) ==> OneVersion(reps, version, p) && RangesAreGuarded(requests))
  }

  /** One attempt more, and the version its bytes are of. */
  lemma OneMoreAttempt(env: Env, reps: nat -> Representation, requests: seq<Request>, p: Progress,
                       version: nat) returns (after: nat)
    requires SoFar(env, reps, requests, p, version)
    ensures var v := AttemptOnce(env, |requests| + 1, p);
            var more := requests + [RequestFor(p)];
            && more[0] == Request(0, "")
            && (Follows(env, reps, more) ==> RangesAreGuarded(more))
            && (v.Again? ==> SoFar(env, reps, more, v.p, after))
            && (v.Success? ==> IsFile(env, |requests| + 1, p, v.p))
            && (v.Success? && Follows(env, reps, more) ==>
                  && v.p.file.value <= reps(after).content
                  && (v.p.total > 0 || EndsUnsatisfied(env.server(|requests| + 1, RequestFor(p))) ==>
                        v.p.file.value == reps(after).content))
  {
    var attempt := |requests| + 1;
    AttemptAccounts(env, attempt, p);
    after := version;
    if Follows(env, reps, requests + [RequestFor(p)]) {
      FollowsSoFar(env, reps, requests, RequestFor(p));
      after := HonestAttempt(env, reps, attempt, p, version);
      GuardedOnceMore(env, reps, requests, p, version);
    }
  }

  /** A file that is not empty and too long in one case alone. */
  predicate IsFile(env: Env, attempt: nat, before: Progress, p: Progress) {
    && p.file.Some? && 0 < |p.file.value| <= MAX_BYTES + 1
    && (|p.file.value| > MAX_BYTES ==> EndsUnsatisfied(env.server(attempt, RequestFor(before))))
  }

  lemma GuardedOnceMore(env: Env, reps: nat -> Representation, requests: seq<Request>, p: Progress, version: nat)
    requires RangesAreGuarded(requests) && OneVersion(reps, version, p) && Honest(env, reps)
    ensures RangesAreGuarded(requests + [RequestFor(p)])
  {
    assert p.offset > 0 ==> p.etag != "";
  }

  const NOTHING := Progress(None, 0, -1, "", "")

  /** What the attempts from this one on come to, and the progress they end with. */
  function Ends(env: Env, attempt: nat, p: Progress): (Outcome, Progress)
    decreases RESUME_ATTEMPTS - attempt
  {
    match AttemptOnce(env, attempt, p)
    case Success(q) => (Downloaded, q)
    case Unchanged(q) => (NotModified, q)
    case Failed(q) => (Error, q)
    case Again(q) => if attempt < RESUME_ATTEMPTS then Ends(env, attempt + 1, q) else (Error, q)
  }

  /**
   `downloadIPGeoURL`. `requests` logs what was asked; `known` says that the length of the last body was
   announced. `reps` only matters for the promises about honest servers.
   */
  method DownloadURL(env: Env, ghost reps: nat -> Representation)
    returns (outcome: Outcome, file: Option<seq<byte>>, ghost requests: seq<Request>, ghost known: bool, ghost version: nat)
    ensures var (end, last) := Ends(env, 1, NOTHING); outcome == end && (outcome.Downloaded? ==> file == last.file)
    ensures outcome.Downloaded? && 1 <= |requests| ==>
              (known <==> Ends(env, 1, NOTHING).1.total > 0 || EndsUnsatisfied(env.server(|requests|, requests[|requests| - 1])))
    // Whatever the server does:
    ensures 1 <= |requests| <= RESUME_ATTEMPTS
    ensures outcome.Downloaded? ==> file.Some? && 0 < |file.value| <= MAX_BYTES + 1
    ensures outcome.Downloaded? && |file.value| > MAX_BYTES ==>
              EndsUnsatisfied(env.server(|requests|, requests[|requests| - 1]))
    ensures !outcome.Downloaded? ==> file.None?
    ensures requests[0] == Request(0, "")
    // Against an honest server, if what starts the file anew carries its validator:
    ensures Follows(env, reps, requests) ==> RangesAreGuarded(requests)
    ensures Follows(env, reps, requests) && outcome.Downloaded? ==> file.value <= reps(version).content
    ensures Follows(env, reps, requests) && outcome.Downloaded? && known ==> file.value == reps(version).content
  {
    var p := NOTHING;
    var attempt := 1;
    requests, known, version := [], false, 0;
    while true
      invariant attempt == |requests| + 1 && SoFar(env, reps, requests, p, version)
      invariant Ends(env, 1, NOTHING) == Ends(env, attempt, p)
      decreases RESUME_ATTEMPTS - attempt
    {
      ghost var after := OneMoreAttempt(env, reps, requests, p, version);
      requests := requests + [RequestFor(p)];
      var verdict := PerformAttempt(env, attempt, p);
      version := after;
      match verdict {
        case Again(next) =>
          p := next;
          attempt := attempt + 1;
        case Success(done) =>
          known := done.total > 0 || EndsUnsatisfied(env.server(attempt, RequestFor(p)));
          return Downloaded, done.file, requests, known, version;
        case Unchanged(done) =>
          return NotModified, None, requests, known, version;
        case Failed(_) =>
          return Error, None, requests, known, version;
      }
    }
  }

  /** The body of the loop, with the copy done by `CopyResponse`. */
  method PerformAttempt(env: Env, attempt: nat, before: Progress) returns (v: Verdict)
    ensures v == AttemptOnce(env, attempt, before)
  {
    var r := env.server(attempt, RequestFor(before));
    if r.NetworkError? {
      return RetryOrFail(env, attempt, before);
    }
    var p := WithValidators(before, r);
    if r.status == 304 {
      return Unchanged(p);
    }
    if r.status == 416 && p.offset > 0 {
      if r.unsatisfiedRange == Some(p.offset) {
        return Success(p);
      }
      return Failed(p);
    }
    if r.status < 200 || r.status >= 300 {
      return Failed(p);
    }
    var prepared := Prepare(p, r);
    if prepared.None? {
      return Failed(p);
    }
    var q := prepared.value;
    if (p.file.None? && !env.createsTemp(attempt)) || !env.opensFile(attempt) {
      return Failed(q);
    }
    var copied := CopyResponse(r.body, MAX_BYTES + 1 - q.offset, r.contentLength);
    var s := Store(p, q, copied.data);
    if copied.ok && r.closes && !(s.total > 0 && s.offset != s.total) {
      if s.offset == 0 || s.offset > MAX_BYTES {
        return Failed(s);
      }
      return Success(s);
    }
    return RetryOrFail(env, attempt, s);
  }
}
