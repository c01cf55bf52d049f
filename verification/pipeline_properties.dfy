/**
  Properties of one item's run through the retry loop: when it skips, what
  it leaves untouched, what a publish leaves behind, and the behaviour of
  the retry budget, the size guard and the validation counter.
 */
module PipelineProperties {
  import opened Wrappers
  import opened LocalFiles
  import opened Http
  import opened Metadata
  import opened XmlValidation
  import opened ChangeDetector
  import opened Pipeline

  /** The sleeps are strictly increasing. */
  lemma {:induction false} ScheduleIncreasing(k: nat, n: nat, i: nat, j: nat)
    requires i < j < n
    ensures Schedule(k, n)[i] < Schedule(k, n)[j]
    decreases n
  {
    if i == 0 {
      assert Schedule(k, n)[j] == Schedule(k + 1, n - 1)[j - 1];
      ScheduleValues(k + 1, n - 1, j - 1);
      BackoffStrictlyIncreasing(k, k + j);
    } else {
      ScheduleIncreasing(k + 1, n - 1, i - 1, j - 1);
    }
  }

  lemma {:induction false} ScheduleValues(k: nat, n: nat, i: nat)
    requires i < n
    ensures Schedule(k, n)[i] == Backoff(k + i)
    decreases n
  {
    if i > 0 {
      ScheduleValues(k + 1, n - 1, i - 1);
    }
  }

  /** The attempts the retry loop makes form a run that the attempt
      contract describes, attempt by attempt. */
  lemma {:induction false} AttemptsAreARun(k: nat, force: bool, name: string, attempts: seq<Attempt>,
                                           store: Store, dir: Dir)
    requires |attempts| == RetryAttempts && k < RetryAttempts
    ensures RunFrom(k, force, name, attempts, store, dir, Attempts(k, force, name, attempts, store, dir))
    decreases RetryAttempts - k
  {
    var a := AttemptOnce(force, name, attempts[k], store, dir);
    if a.end.Fail? && k < RetryAttempts - 1 {
      AttemptsAreARun(k + 1, force, name, attempts, a.store, a.dir);
      assert Attempts(k, force, name, attempts, store, dir)[1..] == Attempts(k + 1, force, name, attempts, a.store, a.dir);
    }
  }

  /** A run ends skipped only when its last attempt's probe answered 304 to
      a probe the detector sent; and a 304 to the probe of its first attempt
      ends it there. */
  lemma {:induction false} RunSkips(k: nat, force: bool, name: string, attempts: seq<Attempt>, store: Store, dir: Dir,
                                    rs: seq<AttemptResult>)
    requires |attempts| == RetryAttempts && RunFrom(k, force, name, attempts, store, dir, rs)
    ensures Last(rs).end.Skip? ==> !force && name in dir && name in store && Is304(attempts[k + |rs| - 1].probe)
    ensures !force && name in dir && name in store && Is304(attempts[k].probe) ==> |rs| == 1 && rs[0].end.Skip?
    decreases |rs|
  {
    if |rs| > 1 {
      RunSkips(k + 1, force, name, attempts, rs[0].store, rs[0].dir, rs[1..]);
      assert Last(rs[1..]) == Last(rs);
      assert name in rs[0].dir <==> name in dir;
    }
  }

  /** Every attempt of a run sends at most a probe and a GET; with the force
      flag, exactly one GET and nothing else. */
  lemma {:induction false} RunRequests(k: nat, force: bool, name: string, attempts: seq<Attempt>, store: Store, dir: Dir,
                                       rs: seq<AttemptResult>)
    requires |attempts| == RetryAttempts && RunFrom(k, force, name, attempts, store, dir, rs)
    ensures |Retry(k, rs).requests| <= 2 * |rs|
    ensures force ==> Retry(k, rs).requests == Gets(|rs|)
    decreases |rs|
  {
    if |rs| > 1 {
      RunRequests(k + 1, force, name, attempts, rs[0].store, rs[0].dir, rs[1..]);
    }
  }

  /** A run changes no record but the item's own, and that one only by
      publishing. */
  lemma {:induction false} RunStoreFrame(k: nat, force: bool, name: string, attempts: seq<Attempt>, store: Store, dir: Dir,
                                         rs: seq<AttemptResult>)
    requires |attempts| == RetryAttempts && RunFrom(k, force, name, attempts, store, dir, rs)
    ensures SameRecordsExcept(store, Last(rs).store, name)
    ensures !Last(rs).end.Publish? ==> Last(rs).store == store
    decreases |rs|
  {
    if |rs| > 1 {
      RunStoreFrame(k + 1, force, name, attempts, rs[0].store, rs[0].dir, rs[1..]);
      assert Last(rs[1..]) == Last(rs);
    }
  }

  /** A run touches no directory entry but the final path and the staging
      path; the final path only by publishing; and unless its first attempt
      was skipped it leaves no staging file behind. */
  lemma {:induction false} RunDirFrame(k: nat, force: bool, name: string, attempts: seq<Attempt>, store: Store, dir: Dir,
                                       rs: seq<AttemptResult>)
    requires |attempts| == RetryAttempts && RunFrom(k, force, name, attempts, store, dir, rs)
    ensures SameEntriesExcept(dir, Last(rs).dir, {name, StagingName(name)})
    ensures !Last(rs).end.Publish? ==> Entry(Last(rs).dir, name) == Entry(dir, name)
    ensures !(|rs| == 1 && rs[0].end.Skip?) ==> StagingName(name) !in Last(rs).dir
    decreases |rs|
  {
    if |rs| > 1 {
      RunDirFrame(k + 1, force, name, attempts, rs[0].store, rs[0].dir, rs[1..]);
      assert Last(rs[1..]) == Last(rs);
    }
  }

  /** A run that ends in a publish leaves behind what its last attempt
      delivered, judged against what the detector saw when the run began. */
  lemma {:induction false} RunPublishes(k: nat, force: bool, name: string, attempts: seq<Attempt>, store: Store, dir: Dir,
                                        rs: seq<AttemptResult>)
    requires |attempts| == RetryAttempts && RunFrom(k, force, name, attempts, store, dir, rs)
    ensures Last(rs).end.Publish? ==>
              Delivered(force, name, attempts[k + |rs| - 1], name in dir, GetFileInfo(store, name),
                        Last(rs).end.size, Last(rs).store, Last(rs).dir)
    decreases |rs|
  {
    if |rs| > 1 {
      RunPublishes(k + 1, force, name, attempts, rs[0].store, rs[0].dir, rs[1..]);
      assert Last(rs[1..]) == Last(rs);
      assert name in rs[0].dir <==> name in dir;
    }
  }

  /** An attempt keeps the metadata truthful about the directory. */
  lemma AttemptConsistency(force: bool, name: string, a: Attempt, store: Store, dir: Dir, r: AttemptResult)
    requires AttemptContract(force, name, a, store, dir, r)
    requires Consistent(store, dir)
    ensures Consistent(r.store, r.dir)
  {
    if r.end.Publish? {
      forall n | n in r.store && n in r.dir
        ensures r.store[n].hash == Sha256(r.dir[n]) && r.store[n].size == |r.dir[n]|
      {
        if n != name {
          assert n in store && n in dir && r.dir[n] == dir[n];
        }
      }
    }
  }

  /** A run keeps the metadata truthful about the directory. */
  lemma {:induction false} RunConsistency(k: nat, force: bool, name: string, attempts: seq<Attempt>, store: Store, dir: Dir,
                                          rs: seq<AttemptResult>)
    requires |attempts| == RetryAttempts && RunFrom(k, force, name, attempts, store, dir, rs)
    requires Consistent(store, dir)
    ensures Consistent(Last(rs).store, Last(rs).dir)
    decreases |rs|
  {
    AttemptConsistency(force, name, attempts[k], store, dir, rs[0]);
    if |rs| > 1 {
      RunConsistency(k + 1, force, name, attempts, rs[0].store, rs[0].dir, rs[1..]);
      assert Last(rs[1..]) == Last(rs);
    }
  }

  /** The validation counter of a run reaches its number of attempts exactly
      when every one of them failed validation. */
  lemma {:induction false} RunValidationCount(k: nat, rs: seq<AttemptResult>)
    requires 1 <= |rs| && k + |rs| <= RetryAttempts
    ensures Retry(k, rs).validationFailures == |rs| <==> forall i :: 0 <= i < |rs| ==> rs[i].end == Fail(true)
    decreases |rs|
  {
    if |rs| > 1 {
      RunValidationCount(k + 1, rs[1..]);
      assert forall i :: 1 <= i < |rs| ==> rs[i] == rs[1..][i - 1];
    }
  }

  /** An item is skipped only when the detector probed and the probe of its
      last attempt answered 304; a 304 to the first probe skips it at once. */
  lemma ItemSkipOnlyOn304(force: bool, name: string, attempts: seq<Attempt>, store: Store, dir: Dir)
    requires |attempts| == RetryAttempts
    ensures var r := DownloadFile(force, name, attempts, store, dir);
            r.outcome.Skipped? ==> !force && name in dir && name in store && Is304(attempts[r.attemptsUsed - 1].probe)
    ensures var r := DownloadFile(force, name, attempts, store, dir);
            !force && name in dir && name in store && Is304(attempts[0].probe) ==> r.outcome.Skipped? && r.attemptsUsed == 1
  {
    AttemptsAreARun(0, force, name, attempts, store, dir);
    RunSkips(0, force, name, attempts, store, dir, Attempts(0, force, name, attempts, store, dir));
  }

  /** Each attempt sends at most a probe and a GET; with the force flag, one
      GET per attempt and no probe at all, so the item is never skipped. */
  lemma ItemRequests(force: bool, name: string, attempts: seq<Attempt>, store: Store, dir: Dir)
    requires |attempts| == RetryAttempts
    ensures var r := DownloadFile(force, name, attempts, store, dir);
            |r.requests| <= 2 * r.attemptsUsed
    ensures var r := DownloadFile(force, name, attempts, store, dir);
            force ==> r.requests == Gets(r.attemptsUsed) && !r.outcome.Skipped?
  {
    AttemptsAreARun(0, force, name, attempts, store, dir);
    RunRequests(0, force, name, attempts, store, dir, Attempts(0, force, name, attempts, store, dir));
    RunSkips(0, force, name, attempts, store, dir, Attempts(0, force, name, attempts, store, dir));
  }

  /** An item changes no record but its own, and its own only by downloading. */
  lemma ItemStoreFrame(force: bool, name: string, attempts: seq<Attempt>, store: Store, dir: Dir)
    requires |attempts| == RetryAttempts
    ensures var r := DownloadFile(force, name, attempts, store, dir);
            SameRecordsExcept(store, r.store, name) && (!r.outcome.Downloaded? ==> r.store == store)
  {
    AttemptsAreARun(0, force, name, attempts, store, dir);
    RunStoreFrame(0, force, name, attempts, store, dir, Attempts(0, force, name, attempts, store, dir));
  }

  /** An item touches no directory entry but its final path and its staging
      path; the final path only by downloading; and unless it was skipped it
      leaves no staging file behind. */
  lemma ItemDirFrame(force: bool, name: string, attempts: seq<Attempt>, store: Store, dir: Dir)
    requires |attempts| == RetryAttempts
    ensures var r := DownloadFile(force, name, attempts, store, dir);
            && SameEntriesExcept(dir, r.dir, {name, StagingName(name)})
            && (!r.outcome.Downloaded? ==> Entry(r.dir, name) == Entry(dir, name))
            && (!r.outcome.Skipped? ==> StagingName(name) !in r.dir)
  {
    AttemptsAreARun(0, force, name, attempts, store, dir);
    RunDirFrame(0, force, name, attempts, store, dir, Attempts(0, force, name, attempts, store, dir));
  }

  /** A downloaded item was published by its last attempt, which passed every
      step including validation; the final path holds the streamed bytes and
      the record their digest and size. */
  lemma ItemPublishes(force: bool, name: string, attempts: seq<Attempt>, store: Store, dir: Dir)
    requires |attempts| == RetryAttempts
    ensures var r := DownloadFile(force, name, attempts, store, dir);
            r.outcome.Downloaded? ==>
              Delivered(force, name, attempts[r.attemptsUsed - 1], name in dir, GetFileInfo(store, name),
                        r.outcome.size, r.store, r.dir)
  {
    AttemptsAreARun(0, force, name, attempts, store, dir);
    RunPublishes(0, force, name, attempts, store, dir, Attempts(0, force, name, attempts, store, dir));
  }

  /** An item keeps the metadata truthful about the directory: wherever both
      a record and a file exist afterwards, the record's digest and size are
      the file's. */
  lemma ItemConsistency(force: bool, name: string, attempts: seq<Attempt>, store: Store, dir: Dir)
    requires |attempts| == RetryAttempts && Consistent(store, dir)
    ensures var r := DownloadFile(force, name, attempts, store, dir);
            Consistent(r.store, r.dir)
  {
    AttemptsAreARun(0, force, name, attempts, store, dir);
    RunConsistency(0, force, name, attempts, store, dir, Attempts(0, force, name, attempts, store, dir));
  }

  /** Two failed transfers followed by a good one: the item is downloaded
      on the third attempt, after sleeping 1 and then 2 seconds. */
  lemma RetryThenSucceed(force: bool, name: string, attempts: seq<Attempt>, store: Store, dir: Dir)
    requires |attempts| == RetryAttempts
    requires forall i :: 0 <= i < RetryAttempts ==> !Is304(attempts[i].probe)
    requires attempts[0].get.GetRaised? && attempts[1].get.GetRaised?
    requires TransferSucceeds(name, attempts[2])
    ensures var r := DownloadFile(force, name, attempts, store, dir);
            r.outcome.Downloaded? && r.attemptsUsed == 3 && r.delays == [1, 2]
  {
    var rs := Attempts(0, force, name, attempts, store, dir);
    AttemptsAreARun(0, force, name, attempts, store, dir);
    FailFailPublish(force, name, attempts, store, dir, rs);
    assert Last(rs) == rs[2];
    assert Schedule(0, 2) == [Backoff(0)] + Schedule(1, 1);
  }

  /** A run whose first two transfers raise and whose third succeeds has
      exactly three attempts and publishes on the third. */
  lemma FailFailPublish(force: bool, name: string, attempts: seq<Attempt>, store: Store, dir: Dir,
                        rs: seq<AttemptResult>)
    requires |attempts| == RetryAttempts
    requires RunFrom(0, force, name, attempts, store, dir, rs)
    requires forall i :: 0 <= i < RetryAttempts ==> !Is304(attempts[i].probe)
    requires attempts[0].get.GetRaised? && attempts[1].get.GetRaised?
    requires TransferSucceeds(name, attempts[2])
    ensures |rs| == 3 && rs[2].end.Publish?
  {
    assert |rs| > 1;
    assert RunFrom(1, force, name, attempts, rs[0].store, rs[0].dir, rs[1..]);
    assert |rs| > 2;
    assert RunFrom(2, force, name, attempts, rs[1].store, rs[1].dir, rs[2..]);
  }

  /** A declared Content-Length above the maximum on every GET means the item
      is never downloaded. */
  lemma OversizeNeverDownloaded(force: bool, name: string, attempts: seq<Attempt>, store: Store, dir: Dir)
    requires |attempts| == RetryAttempts
    requires forall i :: 0 <= i < RetryAttempts ==>
               attempts[i].get.GetResponse? && attempts[i].get.headers.contentLength.Some?
               && attempts[i].get.headers.contentLength.value.Numeral?
               && attempts[i].get.headers.contentLength.value.n > MaxFileSize
    ensures !DownloadFile(force, name, attempts, store, dir).outcome.Downloaded?
  {
    ItemPublishes(force, name, attempts, store, dir);
  }

  /** Without a Content-Length header nothing bounds the size: a body longer
      than the maximum is published. */
  lemma UndeclaredSizeIsUnchecked(name: string, attempts: seq<Attempt>, store: Store, dir: Dir)
    requires |attempts| == RetryAttempts
    requires attempts[0].get.GetResponse? && attempts[0].get.headers.contentLength.None?
    requires TransferSucceeds(name, attempts[0])
    requires SumLengths(attempts[0].get.body.chunks) > MaxFileSize
    ensures var r := DownloadFile(true, name, attempts, store, dir);
            r.outcome.Downloaded? && r.outcome.size > MaxFileSize
  {
    var rs := Attempts(0, true, name, attempts, store, dir);
    AttemptsAreARun(0, true, name, attempts, store, dir);
    assert rs[0].end.Publish?;
  }

  /** A validation error is counted on every failed attempt, not once per
      item: three attempts that all fail validation add three, and one error. */
  lemma ValidationErrorsPerAttempt(name: string, attempts: seq<Attempt>, store: Store, dir: Dir, s: Stats)
    requires |attempts| == RetryAttempts
    requires forall i :: 0 <= i < RetryAttempts ==> FailsValidation(name, attempts[i])
    ensures var r := DownloadFile(true, name, attempts, store, dir);
            && r.outcome.Failed?
            && Tally(s, r).validationErrors == s.validationErrors + 3
            && Tally(s, r).errors == s.errors + 1
  {
    var rs := Attempts(0, true, name, attempts, store, dir);
    AttemptsAreARun(0, true, name, attempts, store, dir);
    assert rs[0].end == Fail(true) && |rs| > 1;
    assert RunFrom(1, true, name, attempts, rs[0].store, rs[0].dir, rs[1..]);
    assert rs[1].end == Fail(true) && |rs| > 2;
    assert RunFrom(2, true, name, attempts, rs[1].store, rs[1].dir, rs[2..]);
    assert rs[2].end == Fail(true);
    RunValidationCount(0, rs);
  }

  /** Validation reads the staging file, whose suffix is `.tmp` whatever the
      item's name, so during a download the AIML structure warnings are never
      produced: only the verdict takes effect. */
  lemma StagedValidationNeverWarns(name: string, staged: ReadOutcome)
    ensures ValidateXmlFile(StagingName(name), staged).warnings == []
  {
    StagingSuffixIsNotAiml(name);
  }

  /** The counters do not depend on the order in which items finish. */
  lemma TallyOrderIndependent(s: Stats, r1: ItemRun, r2: ItemRun)
    ensures Tally(Tally(s, r1), r2) == Tally(Tally(s, r2), r1)
  {
  }

  /** The Content-Length guard at the gate: a declared size above the
      maximum, or one `int` cannot read, fails the attempt before anything is
      streamed or validated; an absent or empty header is not checked at all. */
  lemma SizeGuardAtTheGate(name: string, a: Attempt)
    requires a.get.GetResponse?
    ensures var cl := a.get.headers.contentLength;
            cl.Some? && (cl.value.NotANumber? || (cl.value.Numeral? && cl.value.n > MaxFileSize)) ==>
              !TransferSucceeds(name, a) && !FailsValidation(name, a)
    ensures var cl := a.get.headers.contentLength;
            cl.None? || cl == Some(EmptyLength) ==>
              (TransferSucceeds(name, a) <==>
                 a.get.status == 200 && a.get.body.complete && a.renamed
                 && (IsAimlTarget(name) ==> ValidateXmlFile(StagingName(name), a.staged).valid))
  {
  }

  /** Only names ending in ".aiml" (case-sensitively) are validated: for any
      other name the staged file's contents never matter, so an upper-case
      ".AIML" name is published unvalidated. */
  lemma OnlyAimlNamesValidated(name: string, a: Attempt)
    ensures !IsAimlTarget(name) ==>
              !FailsValidation(name, a) && (TransferSucceeds(name, a) <==> TransferSucceeds(name, a.(staged := Unreadable)))
    ensures !IsAimlTarget(name + ".AIML")
  {
    var n := name + ".AIML";
    assert n[|n| - 1] == 'L';
  }

  /** An attempt that streams a whitespace-only body (an empty one included)
      for an `.aiml` target and reaches the validation gate fails it. */
  lemma BlankBodyFailsValidation(name: string, a: Attempt)
    requires IsAimlTarget(name)
    requires a.get.GetResponse? && a.get.status == 200 && SizeGuard(a.get.headers.contentLength)
    requires a.get.body.complete
    requires AllSpace(Flatten(a.get.body.chunks)) && ReadsBack(Flatten(a.get.body.chunks), a.staged)
    ensures FailsValidation(name, a) && !TransferSucceeds(name, a)
  {
  }

  /** An `.aiml` item whose GET bodies are all whitespace only is never
      downloaded, whatever the probes, statuses and renames do. */
  lemma BlankAimlNeverDownloaded(force: bool, name: string, attempts: seq<Attempt>, store: Store, dir: Dir)
    requires |attempts| == RetryAttempts && IsAimlTarget(name)
    requires forall i :: 0 <= i < RetryAttempts && attempts[i].get.GetResponse? ==>
               && AllSpace(Flatten(attempts[i].get.body.chunks))
               && ReadsBack(Flatten(attempts[i].get.body.chunks), attempts[i].staged)
    ensures !DownloadFile(force, name, attempts, store, dir).outcome.Downloaded?
  {
    ItemPublishes(force, name, attempts, store, dir);
  }

  /** A forced `.aiml` item whose first GET delivers an empty body in full is
      charged a validation error for that attempt. */
  lemma EmptyAimlBodyIsAValidationError(name: string, attempts: seq<Attempt>, store: Store, dir: Dir)
    requires |attempts| == RetryAttempts && IsAimlTarget(name)
    requires attempts[0].get.GetResponse? && attempts[0].get.status == 200
    requires SizeGuard(attempts[0].get.headers.contentLength) && attempts[0].get.body.complete
    requires Flatten(attempts[0].get.body.chunks) == [] && ReadsBack([], attempts[0].staged)
    ensures DownloadFile(true, name, attempts, store, dir).validationFailures >= 1
  {
    var rs := Attempts(0, true, name, attempts, store, dir);
    AttemptsAreARun(0, true, name, attempts, store, dir);
    assert rs[0].end == Fail(true);
  }
}
