/**
  `download_file`: the per-item pipeline. Each attempt re-runs the change
  detector, sends the GET, applies the Content-Length guard, streams the
  body into the staging file, validates `.aiml` targets, renames the staging
  file over the final path and only then records the new metadata. Failed
  attempts remove the staging file and are retried with exponential backoff,
  at most `RetryAttempts` times.

  Everything the outside world decides (probe and GET answers, what the
  staged file parses into, whether the rename succeeds) arrives as one
  `Attempt` value per attempt.
 */
module Pipeline {
  import opened Wrappers
  import opened LocalFiles
  import opened Http
  import opened Metadata
  import opened XmlValidation
  import opened ChangeDetector

  /** `MAX_FILE_SIZE`: 10 MiB. */
  const MaxFileSize: nat := 10 * 1024 * 1024
  /** `RETRY_ATTEMPTS`. */
  const RetryAttempts: nat := 3
  /** `RETRY_DELAY`, in seconds. */
  const RetryDelay: nat := 1

  /** The outside world's answers for one attempt: the HEAD probe, the GET,
      what reading back and parsing the staged file yields, and whether the
      rename over the final path succeeds. */
  datatype Attempt = Attempt(probe: ProbeOutcome, get: GetOutcome, staged: ReadOutcome, renamed: bool)

  /** The downloader's statistics counters. */
  datatype Stats = Stats(downloaded: nat, skipped: nat, errors: nat, validationErrors: nat, totalSize: nat)

  /** How one attempt ended; `Fail(true)` is a failed validation. */
  datatype AttemptEnd = Skip | Publish(size: nat) | Fail(invalid: bool)

  datatype AttemptResult = AttemptResult(end: AttemptEnd, store: Store, dir: Dir, requests: seq<Request>)

  /** How the item ended: `download_file` returns True for the first two. */
  datatype Outcome = Downloaded(size: nat) | Skipped | Failed

  /** One item's run: its outcome, how many attempts it took, how many of
      them failed validation, the sleeps between them, the requests sent,
      and the resulting metadata and directory. */
  datatype ItemRun = ItemRun(outcome: Outcome, attemptsUsed: nat, validationFailures: nat, delays: seq<nat>,
                             requests: seq<Request>, store: Store, dir: Dir)

  function Pow2(k: nat): (p: nat)
    ensures p >= 1
  {
    if k == 0 then 1 else 2 * Pow2(k - 1)
  }

  /** The sleep after failed attempt `k` (0-based): `RETRY_DELAY * 2 ** k`. */
  function Backoff(k: nat): nat
  {
    RetryDelay * Pow2(k)
  }

  /** The sleeps after `n` consecutive failed attempts starting with attempt `k`. */
  function Schedule(k: nat, n: nat): (ds: seq<nat>)
    ensures |ds| == n
    decreases n
  {
    if n == 0 then [] else [Backoff(k)] + Schedule(k + 1, n - 1)
  }

  /** `n` GET requests and nothing else. */
  function Gets(n: nat): (rs: seq<Request>)
    ensures |rs| == n
    ensures forall i :: 0 <= i < n ==> rs[i] == GetRequest
  {
    if n == 0 then [] else [GetRequest] + Gets(n - 1)
  }

  /** The first sleep is `RETRY_DELAY` and each further one doubles the last. */
  lemma BackoffDoubles(k: nat)
    ensures Backoff(0) == RetryDelay
    ensures Backoff(k + 1) == 2 * Backoff(k)
  {
  }

  /** Later sleeps are strictly longer. */
  lemma {:induction false} BackoffStrictlyIncreasing(j: nat, k: nat)
    requires j < k
    ensures Backoff(j) < Backoff(k)
    decreases k
  {
    if j < k - 1 {
      BackoffStrictlyIncreasing(j, k - 1);
    }
  }

  /** The Content-Length guard: no header, or an empty one, is not checked; a
      number must not exceed the maximum; text `int` rejects raises. */
  predicate SizeGuard(cl: Option<LengthField>)
  {
    match cl
    case None => true
    case Some(EmptyLength) => true
    case Some(Numeral(n)) => n <= MaxFileSize
    case Some(NotANumber(_)) => false
  }

  /** `filename.endswith('.aiml')`: the targets that are validated. */
  predicate IsAimlTarget(name: string)
  {
    EndsWith(name, ".aiml")
  }

  /** The validators a 200 probe reported, or none (`headers_info.get(...)`). */
  function ProbedEtag(d: Decision): Option<string>
  {
    if d.info.Some? then d.info.value.etag else None
  }

  function ProbedLastModified(d: Decision): Option<string>
  {
    if d.info.Some? then d.info.value.lastModified else None
  }

  /** Every step after the decision to download goes through. */
  predicate TransferSucceeds(name: string, a: Attempt)
  {
    && a.get.GetResponse? && a.get.status == 200
    && SizeGuard(a.get.headers.contentLength)
    && a.get.body.complete
    && (IsAimlTarget(name) ==> ValidateXmlFile(StagingName(name), a.staged).valid)
    && a.renamed
  }

  /** The attempt reaches the validation gate and the staged file fails it. */
  predicate FailsValidation(name: string, a: Attempt)
  {
    && a.get.GetResponse? && a.get.status == 200
    && SizeGuard(a.get.headers.contentLength)
    && a.get.body.complete
    && IsAimlTarget(name)
    && !ValidateXmlFile(StagingName(name), a.staged).valid
  }

  /** ASCII whitespace bytes: tab, line feed, vertical tab, form feed,
      carriage return, the separators 0x1C-0x1F and space. */
  predicate AllSpace(bytes: seq<uint8>)
  {
    forall i :: 0 <= i < |bytes| ==> 0x09 <= bytes[i] <= 0x0D || 0x1C <= bytes[i] <= 0x20
  }

  /** How far the model ties what reading the staging file back yields to the
      bytes streamed into it: bytes that are all ASCII whitespace (none at all
      included) decode as UTF-8 to whitespace, which newline translation
      keeps whitespace, so the text read is blank, unless reading raised. */
  predicate ReadsBack(bytes: seq<uint8>, staged: ReadOutcome)
  {
    AllSpace(bytes) ==> staged.Unreadable? || Blank(staged.text)
  }

  /** The effect of a publishing attempt: the streamed bytes sit at the final
      path, the staging file is gone, and the record for `name` holds their
      digest and size, with the GET's validators preferred over the probe's. */
  ghost predicate PublishedFrom(force: bool, name: string, a: Attempt, store: Store, dir: Dir, r: AttemptResult)
  {
    && a.get.GetResponse?
    && var data := Flatten(a.get.body.chunks);
       var d := CheckFileNeedsDownload(force, name in dir, GetFileInfo(store, name), a.probe);
       && r.end == Publish(|data|)
       && |data| == SumLengths(a.get.body.chunks)
       && r.dir == Unlink(dir, StagingName(name))[name := data]
       && r.store == UpdateFileInfo(store, name, FirstTruthy(a.get.headers.etag, ProbedEtag(d)),
                                    FirstTruthy(a.get.headers.lastModified, ProbedLastModified(d)),
                                    Sha256(data), |data|)
  }

  /** What a downloaded item leaves behind, in terms of the attempt that
      published it and what the detector saw when the item started (whether
      the final path existed, and its cached record): that attempt went
      through every step, the final path holds exactly the streamed bytes, and
      the record holds their digest and size with the GET's validators
      preferred over the probe's. */
  ghost predicate Delivered(force: bool, name: string, a: Attempt, localExists: bool, cached: Option<FileRecord>,
                            size: nat, store': Store, dir': Dir)
  {
    && TransferSucceeds(name, a)
    && var data := Flatten(a.get.body.chunks);
       var d := CheckFileNeedsDownload(force, localExists, cached, a.probe);
       && size == |data| == SumLengths(a.get.body.chunks)
       && Entry(dir', name) == Some(data)
       && GetFileInfo(store', name)
          == Some(FileRecord(FirstTruthy(a.get.headers.etag, ProbedEtag(d)),
                             FirstTruthy(a.get.headers.lastModified, ProbedLastModified(d)), Sha256(data), size))
  }

  /** No record but the one for `name` differs between the two stores. */
  ghost predicate SameRecordsExcept(s: Store, s': Store, name: string)
  {
    forall n :: n != name ==> GetFileInfo(s', n) == GetFileInfo(s, n)
  }

  /** No directory entry outside `names` differs between the two directories. */
  ghost predicate SameEntriesExcept(d: Dir, d': Dir, names: set<string>)
  {
    forall n :: n !in names ==> Entry(d', n) == Entry(d, n)
  }

  /** The probe sent in an attempt, if the detector sends one. */
  function ProbeRequests(force: bool, name: string, store: Store, dir: Dir): seq<Request>
  {
    if !force && name in dir && name in store then [Head(ConditionalHeaders(store[name]))] else []
  }

  /** The part of an attempt after the detector said "download": GET, size
      guard, streaming into the staging file, validation, rename, metadata
      update. `etag` and `lastModified` are the probe's validators, the
      fallbacks for the GET's. */
  function Transfer(name: string, a: Attempt, store: Store, dir: Dir,
                    etag: Option<string>, lastModified: Option<string>, requests: seq<Request>): (r: AttemptResult)
    ensures !r.end.Skip? && r.requests == requests
    ensures r.end.Publish? <==> TransferSucceeds(name, a)
    ensures r.end == Fail(true) <==> FailsValidation(name, a)
    ensures !r.end.Publish? ==> r.store == store && r.dir == Unlink(dir, StagingName(name))
    ensures r.end.Publish? ==>
              var data := Flatten(a.get.body.chunks);
              && r.end == Publish(|data|)
              && |data| == SumLengths(a.get.body.chunks)
              && r.dir == Unlink(dir, StagingName(name))[name := data]
              && r.store == UpdateFileInfo(store, name, FirstTruthy(a.get.headers.etag, etag),
                                           FirstTruthy(a.get.headers.lastModified, lastModified), Sha256(data), |data|)
  {
    var tmp := StagingName(name);
    match a.get
    case GetRaised => AttemptResult(Fail(false), store, Unlink(dir, tmp), requests)
    case GetResponse(status, headers, body) =>
      if status != 200 || !SizeGuard(headers.contentLength) then
        AttemptResult(Fail(false), store, Unlink(dir, tmp), requests)
      else
        // the staging file is (re)created and receives the chunks as they arrive
        var data := Flatten(body.chunks);
        var staged := dir[tmp := data];
        assert Unlink(staged, tmp) == Unlink(dir, tmp);
        if !body.complete then AttemptResult(Fail(false), store, Unlink(staged, tmp), requests)
        else if IsAimlTarget(name) && !ValidateXmlFile(tmp, a.staged).valid then
          AttemptResult(Fail(true), store, Unlink(staged, tmp), requests)
        else if !a.renamed then AttemptResult(Fail(false), store, Unlink(staged, tmp), requests)
        else
          FlattenLength(body.chunks);
          var published := Rename(staged, tmp, name);
          assert published == Unlink(dir, tmp)[name := data];
          var store' := UpdateFileInfo(store, name, FirstTruthy(headers.etag, etag),
                                       FirstTruthy(headers.lastModified, lastModified), Sha256(data), |data|);
          AttemptResult(Publish(|data|), store', published, requests)
  }

  /** What one pass through the body of the retry loop does, given the
      metadata and directory it starts from: it is skipped exactly when the
      detector sent a probe and got 304 back; it sends that probe and, unless
      skipped, one GET; it publishes exactly when every later step goes
      through, and then leaves the streamed bytes and their record behind; it
      counts a validation error exactly when the staged `.aiml` file fails
      validation; and anything but a publish leaves the metadata alone, while
      a failure also leaves no staging file. */
  ghost predicate AttemptContract(force: bool, name: string, a: Attempt, store: Store, dir: Dir, r: AttemptResult)
  {
    && (r.end.Skip? <==> !force && name in dir && name in store && Is304(a.probe))
    && r.requests == ProbeRequests(force, name, store, dir) + (if r.end.Skip? then [] else [GetRequest])
    && (r.end.Skip? ==> r.store == store && r.dir == dir)
    && (r.end.Fail? ==> r.store == store && r.dir == Unlink(dir, StagingName(name)))
    && (r.end == Fail(true) <==> !r.end.Skip? && FailsValidation(name, a))
    && (r.end.Publish? <==> !r.end.Skip? && TransferSucceeds(name, a))
    && (r.end.Publish? ==> PublishedFrom(force, name, a, store, dir, r))
  }

  /** One pass through the body of the retry loop. */
  function AttemptOnce(force: bool, name: string, a: Attempt, store: Store, dir: Dir): (r: AttemptResult)
    ensures AttemptContract(force, name, a, store, dir, r)
  {
    var d := CheckFileNeedsDownload(force, name in dir, GetFileInfo(store, name), a.probe);
    var probes := if d.sent.Some? then [Head(d.sent.value)] else [];
    assert probes == ProbeRequests(force, name, store, dir);
    if !d.needsDownload then AttemptResult(Skip, store, dir, probes)
    else Transfer(name, a, store, dir, ProbedEtag(d), ProbedLastModified(d), probes + [GetRequest])
  }

  /** Only a failed attempt is followed by another. */
  predicate OnlyFailuresRetried(rs: seq<AttemptResult>)
  {
    forall i :: 0 <= i < |rs| - 1 ==> rs[i].end.Fail?
  }

  function Last(rs: seq<AttemptResult>): AttemptResult
    requires |rs| > 0
  {
    rs[|rs| - 1]
  }

  /** The attempts the retry loop makes from attempt `k` on: each starts
      from the metadata and directory the previous one left behind, and the
      loop stops after the first attempt that does not fail, or after the
      last one allowed. */
  function Attempts(k: nat, force: bool, name: string, attempts: seq<Attempt>, store: Store, dir: Dir)
    : (rs: seq<AttemptResult>)
    requires |attempts| == RetryAttempts && k < RetryAttempts
    ensures 1 <= |rs| <= RetryAttempts - k
    ensures OnlyFailuresRetried(rs)
    ensures k + |rs| < RetryAttempts ==> !Last(rs).end.Fail?
    decreases RetryAttempts - k
  {
    var a := AttemptOnce(force, name, attempts[k], store, dir);
    if a.end.Fail? && k < RetryAttempts - 1 then [a] + Attempts(k + 1, force, name, attempts, a.store, a.dir)
    else [a]
  }

  /** `rs` is a run of the retry loop from attempt `k` on, starting from
      `store` and `dir`, as far as the attempt contract determines it. */
  ghost predicate RunFrom(k: nat, force: bool, name: string, attempts: seq<Attempt>, store: Store, dir: Dir,
                          rs: seq<AttemptResult>)
    requires |attempts| == RetryAttempts
    decreases |rs|
  {
    && 1 <= |rs| && k + |rs| <= RetryAttempts
    && AttemptContract(force, name, attempts[k], store, dir, rs[0])
    && (|rs| == 1 ==> !rs[0].end.Fail? || k == RetryAttempts - 1)
    && (|rs| > 1 ==> rs[0].end.Fail? && RunFrom(k + 1, force, name, attempts, rs[0].store, rs[0].dir, rs[1..]))
  }

  /** How the item ends, given how its last attempt ended. */
  function Settle(e: AttemptEnd): Outcome
  {
    match e
    case Skip => Skipped
    case Publish(size) => Downloaded(size)
    case Fail(_) => Failed
  }

  /** The retry loop's bookkeeping over the attempts `rs` it made, the first
      of them being attempt `k`: the item ends as its last attempt did, after
      one backoff sleep per failed attempt, with the state the last attempt
      left behind. */
  function Retry(k: nat, rs: seq<AttemptResult>): (r: ItemRun)
    requires 1 <= |rs| && k + |rs| <= RetryAttempts
    ensures r.outcome == Settle(Last(rs).end)
    ensures r.attemptsUsed == k + |rs|
    ensures r.delays == Schedule(k, |rs| - 1)
    ensures r.validationFailures <= |rs|
    ensures r.store == Last(rs).store && r.dir == Last(rs).dir
    decreases |rs|
  {
    var a := rs[0];
    var v := if a.end == Fail(true) then 1 else 0;
    if |rs| == 1 then ItemRun(Settle(a.end), k + 1, v, [], a.requests, a.store, a.dir)
    else
      var rest := Retry(k + 1, rs[1..]);
      ItemRun(rest.outcome, rest.attemptsUsed, v + rest.validationFailures, [Backoff(k)] + rest.delays,
              a.requests + rest.requests, rest.store, rest.dir)
  }

  /** The counter increments of one finished item: exactly one of
      `skipped`, `downloaded`, `errors`; the bytes of a download; and one
      validation error per failed validation, not per item. */
  function Tally(s: Stats, r: ItemRun): (s': Stats)
    ensures s'.downloaded + s'.skipped + s'.errors == s.downloaded + s.skipped + s.errors + 1
    ensures s'.downloaded == s.downloaded + (if r.outcome.Downloaded? then 1 else 0)
    ensures s'.skipped == s.skipped + (if r.outcome.Skipped? then 1 else 0)
    ensures s'.errors == s.errors + (if r.outcome.Failed? then 1 else 0)
    ensures s'.totalSize == s.totalSize + (if r.outcome.Downloaded? then r.outcome.size else 0)
    ensures s'.validationErrors == s.validationErrors + r.validationFailures
  {
    var s := s.(validationErrors := s.validationErrors + r.validationFailures);
    match r.outcome
    case Skipped => s.(skipped := s.skipped + 1)
    case Downloaded(size) => s.(downloaded := s.downloaded + 1, totalSize := s.totalSize + size)
    case Failed => s.(errors := s.errors + 1)
  }

  /** The streaming loop: each chunk is appended to the staging file, fed to
      the hash and added to the byte count; at the end the digest and count
      describe exactly the bytes written. */
  method StreamToStaging(chunks: seq<seq<uint8>>) returns (written: seq<uint8>, digest: Digest, size: nat)
    ensures written == Flatten(chunks)
    ensures size == |written| == SumLengths(chunks)
    ensures digest == Sha256(written)
  {
    written := [];
    size := 0;
    var i := 0;
    while i < |chunks|
      invariant 0 <= i <= |chunks|
      invariant written == Flatten(chunks[..i])
      invariant size == SumLengths(chunks[..i])
    {
      assert chunks[..i + 1][..i] == chunks[..i];
      written := written + chunks[i];
      size := size + |chunks[i]|;
      i := i + 1;
    }
    assert chunks[..|chunks|] == chunks;
    FlattenLength(chunks);
    digest := Sha256(written);
  }

  /** `download_file` for the item stored under `name`. */
  function DownloadFile(force: bool, name: string, attempts: seq<Attempt>, store: Store, dir: Dir): (r: ItemRun)
    requires |attempts| == RetryAttempts
    ensures 1 <= r.attemptsUsed <= RetryAttempts
    ensures r.delays == [RetryDelay, 2 * RetryDelay][..r.attemptsUsed - 1]
  {
    Retry(0, Attempts(0, force, name, attempts, store, dir))
  }
}
