/**
  `download_collection`: the guard and target name of each item, the walk
  over a collection's `files` list, and when the metadata file is read and
  written. The items run one after another in list order, each on the
  metadata and directory the previous one left behind.
 */
module Collection {
  import opened Wrappers
  import opened LocalFiles
  import opened Metadata
  import opened Urls
  import opened Sources
  import opened Pipeline
  import PipelineProperties

  /** How one entry of the `files` list ended. */
  datatype ItemEnd =
    | Crashed                         // the entry is not a mapping: `.get` raised inside `gather`
    | InvalidUrl                      // rejected by the URL guard: no counter moves
    | Ran(name: string, run: ItemRun) // handed to `download_file` under `name`

  /** The state after a prefix of the items. */
  datatype Batch = Batch(store: Store, dir: Dir, stats: Stats, invalid: nat, crashed: nat)

  /** What `download_collection` did. */
  datatype CollectionResult =
    | Raised  // the document is not a mapping: `collection_data.get` raised
    | NoFiles // `files` missing, null or empty: returned True, metadata neither read nor saved
    | Done(saved: Store, dir: Dir, stats: Stats, invalid: nat, crashed: nat)

  /** Items that ended in one of `downloaded`, `skipped`, `errors`. */
  function Finished(s: Stats): nat
  {
    s.downloaded + s.skipped + s.errors
  }

  /** The name an entry's file is stored and recorded under, when its URL
      passes the guard. */
  function Target(collection: string, e: FileEntry): (t: Option<string>)
    ensures t.Some? <==> e.UrlEntry? && Usable(e.url)
  {
    if e.UrlEntry? && Usable(e.url) then Some(LocalName(collection, DerivedFileName(e.url.value))) else None
  }

  /** The URL guard in terms of what `urlparse` yields: an entry is handed
      to `download_file` exactly when it is a mapping whose `url` is a non-empty
      string that parsed with a non-empty scheme, network location and path. */
  lemma UrlGuard(collection: string, e: FileEntry)
    ensures Target(collection, e).Some? <==>
              && e.UrlEntry? && e.url.Some? && e.url.value.text != "" && e.url.value.parts.Parts?
              && e.url.value.parts.scheme != "" && e.url.value.parts.netloc != "" && e.url.value.parts.path != ""
  {
  }

  /** Two URLs `urlparse` accepts without error but the guard rejects: a
      `file:` URL has no network location, and a URL without a scheme parses
      entirely into its path. */
  lemma HostOrSchemeMissingRejected(collection: string)
    ensures Target(collection, UrlEntry(Some(Url("file:///a.aiml", Parts("file", "", "/a.aiml"))))).None?
    ensures Target(collection, UrlEntry(Some(Url("example.org/a.aiml", Parts("", "", "example.org/a.aiml"))))).None?
  {
  }

  /** The names the entries' files are stored under. */
  function Targets(collection: string, entries: seq<FileEntry>): (ts: set<string>)
    ensures forall i :: 0 <= i < |entries| && Target(collection, entries[i]).Some? ==>
              Target(collection, entries[i]).value in ts
    ensures forall t :: t in ts ==> exists i :: 0 <= i < |entries| && Target(collection, entries[i]) == Some(t)
    decreases |entries|
  {
    if |entries| == 0 then {}
    else
      var rest := Targets(collection, entries[1..]);
      assert forall i :: 1 <= i < |entries| ==> entries[i] == entries[1..][i - 1];
      match Target(collection, entries[0])
      case None => rest
      case Some(t) => {t} + rest
  }

  /** `download_with_semaphore` for one entry. */
  function ProcessItem(collection: string, force: bool, e: FileEntry, attempts: seq<Attempt>,
                       store: Store, dir: Dir): (r: ItemEnd)
    requires |attempts| == RetryAttempts
    ensures r.Crashed? <==> e.NotAMapping?
    ensures r.Ran? <==> Target(collection, e).Some?
    ensures r.Ran? ==> r.name == Target(collection, e).value
  {
    match Target(collection, e)
    case None => if e.NotAMapping? then Crashed else InvalidUrl
    case Some(name) => Ran(name, DownloadFile(force, name, attempts, store, dir))
  }

  /** How many entries are not mappings. */
  function CountCrashed(entries: seq<FileEntry>): nat
    decreases |entries|
  {
    if |entries| == 0 then 0
    else (if entries[0].NotAMapping? then 1 else 0) + CountCrashed(entries[1..])
  }

  /** How many entries are mappings whose URL the guard rejects. */
  function CountInvalid(collection: string, entries: seq<FileEntry>): nat
    decreases |entries|
  {
    if |entries| == 0 then 0
    else (if entries[0].UrlEntry? && Target(collection, entries[0]).None? then 1 else 0)
         + CountInvalid(collection, entries[1..])
  }

  /** All one-item environments hold the full retry budget. */
  predicate Budgeted(env: seq<seq<Attempt>>)
  {
    forall i :: 0 <= i < |env| ==> |env[i]| == RetryAttempts
  }

  /** The items in list order; every item lands in exactly one of the three
      counters or among the invalid or crashed entries. */
  function ProcessItems(collection: string, force: bool, entries: seq<FileEntry>, env: seq<seq<Attempt>>,
                        store: Store, dir: Dir, stats: Stats): (b: Batch)
    requires |env| == |entries| && Budgeted(env)
    ensures b.crashed == CountCrashed(entries)
    ensures b.invalid == CountInvalid(collection, entries)
    ensures Finished(b.stats) + b.invalid + b.crashed == Finished(stats) + |entries|
    ensures b.stats.totalSize >= stats.totalSize && b.stats.validationErrors >= stats.validationErrors
    decreases |entries|
  {
    if |entries| == 0 then Batch(store, dir, stats, 0, 0)
    else
      var it := ProcessItem(collection, force, entries[0], env[0], store, dir);
      var b := if it.Ran? then ProcessItems(collection, force, entries[1..], env[1..], it.run.store, it.run.dir, Tally(stats, it.run))
               else ProcessItems(collection, force, entries[1..], env[1..], store, dir, stats);
      b.(crashed := b.crashed + (if it.Crashed? then 1 else 0), invalid := b.invalid + (if it.InvalidUrl? then 1 else 0))
  }

  /** `download_collection(name, data)`: `loaded` is what reading the
      collection's metadata file yields, `dir` its download directory, `env`
      the outside world's answers for each entry. */
  function DownloadCollection(collection: string, force: bool, doc: Document, loaded: LoadOutcome,
                              env: seq<seq<Attempt>>, dir: Dir, stats: Stats): (r: CollectionResult)
    requires doc.Mapping? && doc.files.Some? ==> |env| == |doc.files.value| && Budgeted(env)
    ensures r.Raised? <==> doc.OtherValue?
    ensures r.NoFiles? <==> doc.Mapping? && (doc.files.None? || |doc.files.value| == 0)
    ensures r.Done? ==> r.crashed == CountCrashed(doc.files.value) && r.invalid == CountInvalid(collection, doc.files.value)
    ensures r.Done? ==> Finished(r.stats) + r.invalid + r.crashed == Finished(stats) + |doc.files.value|
  {
    match doc
    case OtherValue => Raised
    case Mapping(files) =>
      if files.None? || |files.value| == 0 then NoFiles
      else
        var b := ProcessItems(collection, force, files.value, env, Load(loaded), dir, stats);
        Done(b.store, b.dir, b.stats, b.invalid, b.crashed)
  }

  /** No record outside `names` differs between the two stores. */
  ghost predicate SameRecordsOutside(s: Store, s': Store, names: set<string>)
  {
    forall n :: n !in names ==> GetFileInfo(s', n) == GetFileInfo(s, n)
  }

  /** Only the records of the entries' target names can change. */
  lemma {:induction false} ItemsTouchOnlyTargets(collection: string, force: bool, entries: seq<FileEntry>,
                                                 env: seq<seq<Attempt>>, store: Store, dir: Dir, stats: Stats)
    requires |env| == |entries| && Budgeted(env)
    ensures SameRecordsOutside(store, ProcessItems(collection, force, entries, env, store, dir, stats).store,
                               Targets(collection, entries))
    decreases |entries|
  {
    if |entries| > 0 {
      var ts := Targets(collection, entries);
      var e := ProcessItem(collection, force, entries[0], env[0], store, dir);
      if e.Ran? {
        PipelineProperties.ItemStoreFrame(force, e.name, env[0], store, dir);
        ItemsTouchOnlyTargets(collection, force, entries[1..], env[1..], e.run.store, e.run.dir, Tally(stats, e.run));
      } else {
        ItemsTouchOnlyTargets(collection, force, entries[1..], env[1..], store, dir, stats);
      }
    }
  }

  /** Processing the items keeps the metadata truthful about the directory. */
  lemma {:induction false} ItemsKeepConsistency(collection: string, force: bool, entries: seq<FileEntry>,
                                                env: seq<seq<Attempt>>, store: Store, dir: Dir, stats: Stats)
    requires |env| == |entries| && Budgeted(env)
    requires Consistent(store, dir)
    ensures var b := ProcessItems(collection, force, entries, env, store, dir, stats);
            Consistent(b.store, b.dir)
    decreases |entries|
  {
    if |entries| > 0 {
      var e := ProcessItem(collection, force, entries[0], env[0], store, dir);
      if e.Ran? {
        PipelineProperties.ItemConsistency(force, e.name, env[0], store, dir);
        ItemsKeepConsistency(collection, force, entries[1..], env[1..], e.run.store, e.run.dir, Tally(stats, e.run));
      } else {
        ItemsKeepConsistency(collection, force, entries[1..], env[1..], store, dir, stats);
      }
    }
  }

  /** Entries whose URLs are all rejected move no counter and touch neither
      the metadata nor the directory. */
  lemma {:induction false} RejectedEntriesChangeNothing(collection: string, force: bool, entries: seq<FileEntry>,
                                                        env: seq<seq<Attempt>>, store: Store, dir: Dir, stats: Stats)
    requires |env| == |entries| && Budgeted(env)
    requires forall i :: 0 <= i < |entries| ==> Target(collection, entries[i]).None?
    ensures var b := ProcessItems(collection, force, entries, env, store, dir, stats);
            b.stats == stats && b.store == store && b.dir == dir && b.invalid + b.crashed == |entries|
    decreases |entries|
  {
    if |entries| > 0 {
      assert forall i :: 1 <= i < |entries| ==> entries[1..][i - 1] == entries[i];
      RejectedEntriesChangeNothing(collection, force, entries[1..], env[1..], store, dir, stats);
    }
  }

  /** The metadata written back is the one loaded, changed only at the
      entries' target names and truthful about the directory when the loaded
      one was; a collection without files never reads or writes metadata. */
  lemma CollectionMetadata(collection: string, force: bool, doc: Document, loaded: LoadOutcome,
                           env: seq<seq<Attempt>>, dir: Dir, stats: Stats)
    requires doc.Mapping? && doc.files.Some? ==> |env| == |doc.files.value| && Budgeted(env)
    ensures var r := DownloadCollection(collection, force, doc, loaded, env, dir, stats);
            r.Done? ==> SameRecordsOutside(Load(loaded), r.saved, Targets(collection, doc.files.value))
    ensures var r := DownloadCollection(collection, force, doc, loaded, env, dir, stats);
            r.Done? && Consistent(Load(loaded), dir) ==> Consistent(r.saved, r.dir)
  {
    if doc.Mapping? && doc.files.Some? && |doc.files.value| > 0 {
      ItemsTouchOnlyTargets(collection, force, doc.files.value, env, Load(loaded), dir, stats);
      if Consistent(Load(loaded), dir) {
        ItemsKeepConsistency(collection, force, doc.files.value, env, Load(loaded), dir, stats);
      }
    }
  }
}
