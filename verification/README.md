# AIML downloader: a Dafny model

This project models the decision logic of the incremental AIML downloader
(`data-prep/alice-aiml/download.py`). The downloader reads collection files
that list URLs. For each URL it decides whether the file needs fetching, using
a HEAD probe with `If-None-Match` / `If-Modified-Since` built from cached
metadata. It downloads with up to three attempts and exponential backoff. It
refuses bodies whose declared `Content-Length` is too large, streams into a
`.tmp` staging file, checks `.aiml` files as XML, and renames the staging file
over the final path. Only after the rename does it record the ETag,
Last-Modified, SHA-256 and size in a per-collection metadata map.

The outside world arrives as plain values:

- One `Pipeline.Attempt` per attempt holds the probe outcome, the GET outcome
  (status, headers, body chunks, whether the stream completed), what reading
  and parsing the staged file yields, and whether the rename succeeds.
- The collection directory is a map from names to bytes.
- The metadata file is the outcome of reading and decoding it.
- Each YAML source file is the outcome of opening and decoding it.

Modules, one per file:

- `Wrappers`: `Option`, `Result` and `Get`, the keyed lookup that stands for
  `dict.get`.
- `LocalFiles`: the directory map, unlink and rename, and `pathlib`'s `.name`,
  `.suffix` and `with_suffix`.
- `Http`: header values, probe and GET outcomes, and Python's `a or b`.
- `Metadata`: `FileMetadata`.
- `Urls`: `validate_url` and the derived file name.
- `XmlValidation`: `validate_xml_file`.
- `ChangeDetector`: `check_file_needs_download`.
- `Pipeline`: `download_file`.
  - One attempt is `AttemptOnce`, with its full contract `AttemptContract`.
  - The attempts actually made are `Attempts`. Each attempt starts from the
    state the previous one left, and the chain stops at the first attempt that
    does not fail.
  - The retry loop's bookkeeping is `Retry`, a recursive function over that
    sequence of attempt results.
  - The statistics counters are `Tally`.
- `PipelineProperties`: what a whole item run guarantees.
- `Sources`: `load_source_files`.
- `Collection`: the per-item guard and naming of `download_collection`, and
  its walk over the `files` list.
- `Governor`: the collection's sub-gate and the process-wide semaphore around
  `download_file`, as a step system over item stages, both as written and
  corrected (see Findings).

Validation reads the staging path, whose suffix is `.tmp`. During a download
the AIML structure warnings (root tag, categories, missing children) are
therefore never produced; only the pass/fail verdict has an effect
(`PipelineProperties.StagedValidationNeverWarns`). The warnings stay in the
model because `validate_xml_file` produces them for `.aiml` paths.

Behaviours of the code worth noting:

- A requested collection name that matches no file is passed over silently.
  Loading fails only when no requested name matches a loadable file.
- A collection file whose YAML error is caught is skipped. A file that cannot
  be opened aborts loading with that error.
- A collection whose `files` list is missing, null or empty returns before
  the metadata is created. Nothing is loaded and nothing is saved.
- `validation_errors` grows once per attempt that fails validation, so one
  item can add up to three.
- An entry rejected by the URL guard moves no counter.

## Model

| member | source | states |
|---|---|---|
| LocalFiles.Unlink | data-prep/alice-aiml/download.py:347-348 | the staging entry is gone and every other entry is unchanged |
| LocalFiles.Rename | data-prep/alice-aiml/download.py:329 | the target holds the staged bytes, the staging entry is gone, everything else is unchanged |
| LocalFiles.PathName | data-prep/alice-aiml/download.py:386 | the derived name never contains '/' and is never "." |
| LocalFiles.PathNameOfChild | data-prep/alice-aiml/download.py:386 | a path ending in "/seg" with a plain segment has name seg |
| LocalFiles.PathNameIgnoresTrailingSlash | data-prep/alice-aiml/download.py:386 | a trailing slash does not change the name |
| LocalFiles.PathNameIgnoresDotComponent | data-prep/alice-aiml/download.py:386 | a trailing "/." does not change the name |
| LocalFiles.Suffix | data-prep/alice-aiml/download.py:210 | the suffix is empty or a dot-led tail of the name with no further dot, shorter than the name |
| LocalFiles.StagingName | data-prep/alice-aiml/download.py:283 | the staging name differs from the final name and ends in ".tmp" |
| LocalFiles.StagingSuffixIsNotAiml | data-prep/alice-aiml/download.py:283 | the staging path's suffix is ".tmp" (or empty for an empty name), never ".aiml" in any case |
| LocalFiles.Lower | data-prep/alice-aiml/download.py:210-212 | lower-casing keeps the length, maps every upper-case ASCII letter to its lower-case letter and keeps every other character |
| Http.FirstTruthy | data-prep/alice-aiml/download.py:334-335 | `a or b` yields one of its operands; it is truthy iff either is; a truthy first operand wins |
| Http.FlattenLength | data-prep/alice-aiml/download.py:312-319 | the running byte count equals the length of the bytes written |
| Metadata.Load | data-prep/alice-aiml/download.py:82-89 | a missing metadata file, one whose reading raises OSError, or one that is not valid JSON loads as the empty map; a decoded object is kept as is |
| Wrappers.Get | data-prep/alice-aiml/download.py:96-98 | a lookup (used for `get_file_info` and for directory entries) answers a value exactly for known keys, and that key's value; unknown keys give None |
| Metadata.UpdateFileInfo | data-prep/alice-aiml/download.py:100-110 | the upsert adds exactly the given name with the new record and keeps every other record |
| Metadata.GetAfterUpdate | data-prep/alice-aiml/download.py:96-110 | reading back after an upsert returns the new record for that name and the old answer for every other |
| Urls.DerivedFileName | data-prep/alice-aiml/download.py:386 | the name taken from a valid URL is a single path component |
| Urls.LocalName | data-prep/alice-aiml/download.py:386-387 | a non-empty derived name is the name the item is stored under |
| Urls.LocalNameOfUrl | data-prep/alice-aiml/download.py:386-387 | a valid URL whose path ends in a plain segment stores the item under that segment |
| XmlValidation.ChildWarnings | data-prep/alice-aiml/download.py:220-227 | category number i+1 draws a missing-pattern warning exactly when it has no `<pattern>` child, and a missing-template warning exactly when it has no `<template>` child; no other warning is produced |
| XmlValidation.AimlWarnings | data-prep/alice-aiml/download.py:209-227 | the root warning appears iff the lower-cased root is not "aiml", and names the document's own root tag; the no-category warning iff there are no categories; among the first three categories, category i+1 draws a missing-pattern (missing-template) warning exactly when it lacks that child, and no category beyond the existing ones or beyond the third is ever named |
| XmlValidation.ValidateXmlFile | data-prep/alice-aiml/download.py:190-233 | valid iff the file was read, is not whitespace-only, and parses; failures carry no warnings; non-.aiml paths never warn; a valid .aiml file carries exactly the structure warnings of its parsed root and categories |
| XmlValidation.UpperCaseRootAccepted | data-prep/alice-aiml/download.py:211-212 | the root tag is compared case-insensitively: an `AIML` root draws no root warning |
| XmlValidation.WarningsAreNotFatal | data-prep/alice-aiml/download.py:209-229 | any parsing, non-blank document passes, whatever its root tag and categories |
| XmlValidation.ForeignRootWithoutCategories | data-prep/alice-aiml/download.py:210-218 | an .aiml file rooted at `html` with no categories passes with exactly the two warnings about them |
| ChangeDetector.ConditionalHeaders | data-prep/alice-aiml/download.py:253-258 | If-None-Match is present iff the cached etag is truthy, If-Modified-Since iff the cached last_modified is; values copied; no other header |
| ChangeDetector.CheckFileNeedsDownload | data-prep/alice-aiml/download.py:235-276 | a probe is sent iff not forced, the file exists and a record is cached; skip iff that probe answers 304; validators are reported iff it answers 200, and they are the probe's headers |
| ChangeDetector.EarlyExits | data-prep/alice-aiml/download.py:240-251 | force, a missing file or a missing record give (True, {}) with no probe, whatever the server would say |
| ChangeDetector.ProbeFailureStillDownloads | data-prep/alice-aiml/download.py:260-276 | a raised probe or any status other than 200/304 never prevents the download and reports no validators |
| Pipeline.BackoffDoubles | data-prep/alice-aiml/download.py:356 | the first sleep is RETRY_DELAY and each further one is twice the one before |
| Pipeline.BackoffStrictlyIncreasing | data-prep/alice-aiml/download.py:356 | later backoff sleeps are strictly longer |
| Pipeline.Schedule | data-prep/alice-aiml/download.py:355-356 | n failed attempts produce exactly n sleeps |
| Pipeline.Transfer | data-prep/alice-aiml/download.py:302-343 | publishes iff GET is 200, the size guard passes, the stream completes, .aiml targets validate and the rename succeeds; counts a validation failure iff validation is what failed; on failure metadata is unchanged and the staging file removed; on publish the final path holds the streamed bytes and the record their digest and size with GET validators preferred over the probe's |
| Pipeline.AttemptOnce | data-prep/alice-aiml/download.py:289-356 | one attempt meets the attempt contract: skip iff a probe was sent and answered 304, the requests sent, publish and validation-failure conditions, and what each ending does to metadata and directory |
| Pipeline.Attempts | data-prep/alice-aiml/download.py:288-356 | at most three attempts; every attempt but the last failed; fewer than the budget means the last did not fail |
| Pipeline.Retry | data-prep/alice-aiml/download.py:288-358 | the item ends as its last attempt did, uses one attempt per result, sleeps RETRY_DELAY·2^k after each failed attempt k but the last, and keeps the last attempt's state |
| Pipeline.Tally | data-prep/alice-aiml/download.py:296-354 | downloaded, skipped and errors each grow by one exactly when the item ended that way and are otherwise unchanged; total_size grows by the downloaded size; validation_errors by the number of failed validations |
| Pipeline.StreamToStaging | data-prep/alice-aiml/download.py:312-319 | the bytes written are the chunks in order; the size and digest describe exactly those bytes |
| Pipeline.DownloadFile | data-prep/alice-aiml/download.py:278-358 | between one and three attempts, with sleeps 1 s and then 2 s between them |
| PipelineProperties.ScheduleIncreasing | data-prep/alice-aiml/download.py:355-356 | the sleeps of one item are strictly increasing |
| PipelineProperties.ScheduleValues | data-prep/alice-aiml/download.py:356 | the i-th sleep after attempt k is RETRY_DELAY·2^(k+i) |
| PipelineProperties.AttemptsAreARun | data-prep/alice-aiml/download.py:288-356 | every attempt the loop makes satisfies the attempt contract on the state the previous one left |
| PipelineProperties.RunSkips | data-prep/alice-aiml/download.py:260-299 | a run ends skipped only after a sent probe answered 304; a 304 to the first probe ends it at once |
| PipelineProperties.RunRequests | data-prep/alice-aiml/download.py:288-302 | at most a probe and a GET per attempt; with force exactly one GET per attempt |
| PipelineProperties.RunStoreFrame | data-prep/alice-aiml/download.py:332-338 | no record but the item's own changes, and that one only by publishing |
| PipelineProperties.RunDirFrame | data-prep/alice-aiml/download.py:315-348 | only the final and staging paths change; the final path only by publishing; no staging file survives unless the first attempt skipped |
| PipelineProperties.RunPublishes | data-prep/alice-aiml/download.py:321-343 | a publishing run's last attempt passed every step and left the streamed bytes and their record |
| PipelineProperties.AttemptConsistency | data-prep/alice-aiml/download.py:328-338 | an attempt keeps every record's digest and size equal to its file's |
| PipelineProperties.RunConsistency | data-prep/alice-aiml/download.py:328-348 | a run keeps every record's digest and size equal to its file's |
| PipelineProperties.RunValidationCount | data-prep/alice-aiml/download.py:325 | the item's validation count equals its attempt count iff every attempt failed validation |
| PipelineProperties.ItemSkipOnlyOn304 | data-prep/alice-aiml/download.py:241-299 | an item is skipped only when its last probe answered 304; a 304 to the first probe skips it on attempt 1 |
| PipelineProperties.ItemRequests | data-prep/alice-aiml/download.py:241-302 | at most two requests per attempt; with force, one GET per attempt, no probe, never skipped |
| PipelineProperties.ItemStoreFrame | data-prep/alice-aiml/download.py:332-338 | an item changes only its own record, and only when downloaded |
| PipelineProperties.ItemDirFrame | data-prep/alice-aiml/download.py:283-348 | an item touches only its final and staging paths, the final path only when downloaded, and leaves no staging file unless skipped |
| PipelineProperties.ItemPublishes | data-prep/alice-aiml/download.py:303-343 | a downloaded item's last attempt passed status, size guard, streaming, validation and rename; its bytes are at the final path, and the record holds their digest and size with GET validators falling back to the probe's |
| PipelineProperties.ItemConsistency | data-prep/alice-aiml/download.py:312-343 | an item keeps the metadata truthful about the directory |
| PipelineProperties.RetryThenSucceed | data-prep/alice-aiml/download.py:288-356 | two raised GETs followed by a good transfer download on attempt 3 after sleeping 1 s and 2 s |
| PipelineProperties.OversizeNeverDownloaded | data-prep/alice-aiml/download.py:307-309 | a declared Content-Length above 10 MiB on every GET means no download |
| PipelineProperties.UndeclaredSizeIsUnchecked | data-prep/alice-aiml/download.py:307-308 | without Content-Length a body over 10 MiB is published |
| PipelineProperties.ValidationErrorsPerAttempt | data-prep/alice-aiml/download.py:321-354 | three failed validations add three validation errors and one error |
| PipelineProperties.StagedValidationNeverWarns | data-prep/alice-aiml/download.py:321-324 | validating the staging file never yields an AIML warning |
| PipelineProperties.TallyOrderIndependent | data-prep/alice-aiml/download.py:340-351 | the statistics counters end the same whichever of two items finishes first |
| PipelineProperties.SizeGuardAtTheGate | data-prep/alice-aiml/download.py:307-309 | a declared Content-Length above 10 MiB, or one `int` cannot read, fails the attempt before streaming or validation; an absent or empty header leaves the transfer to status, stream, validation and rename |
| PipelineProperties.OnlyAimlNamesValidated | data-prep/alice-aiml/download.py:322 | for a name not ending in ".aiml" the staged file's contents never matter and validation never fails; a name ending in ".AIML" is not validated |
| PipelineProperties.BlankBodyFailsValidation | data-prep/alice-aiml/download.py:198-200 | an attempt streaming a whitespace-only (or empty) body for an .aiml target that reaches validation fails it and does not publish |
| PipelineProperties.BlankAimlNeverDownloaded | data-prep/alice-aiml/download.py:321-329 | an .aiml item whose GET bodies are all whitespace-only is never downloaded |
| PipelineProperties.EmptyAimlBodyIsAValidationError | data-prep/alice-aiml/download.py:321-326 | a forced .aiml item whose first GET delivers an empty body is charged a validation error |
| Sources.Stems | data-prep/alice-aiml/download.py:177 | the available list holds every file's stem in listing order |
| Sources.Gather | data-prep/alice-aiml/download.py:163-176 | fails iff some selected file cannot be opened, naming the first such file in listing order; otherwise keeps exactly the selected files that decoded |
| Sources.LoadSourceFiles | data-prep/alice-aiml/download.py:152-180 | a missing directory is an error; success iff no selected file is unopenable and some selected file decoded, and then exactly those collections; a selected file that cannot be opened always wins over the no-collections error, and the first such file is named; the no-collections error lists every stem |
| Sources.NoRequestSelectsAll | data-prep/alice-aiml/download.py:163-165 | with no names requested every file is selected, and the collections are exactly the files that decoded |
| Sources.GatherFollowsSelection | data-prep/alice-aiml/download.py:163-168 | the requested list matters only through which files it selects |
| Sources.UnknownNameIgnored | data-prep/alice-aiml/download.py:163-168 | with names requested, adding one that matches no file changes nothing |
| Sources.OnlyUnknownNamesFail | data-prep/alice-aiml/download.py:163-180 | if no requested name matches, loading fails listing all stems |
| Collection.UrlGuard | data-prep/alice-aiml/download.py:182-188 | an entry is handed to `download_file` exactly when its `url` is a non-empty string that parsed with a non-empty scheme, network location and path |
| Collection.HostOrSchemeMissingRejected | data-prep/alice-aiml/download.py:182-188 | a `file:` URL (no network location) and a URL without a scheme are both rejected by the guard |
| Collection.Target | data-prep/alice-aiml/download.py:381-387 | an entry gets a target name iff it is a mapping with a non-empty URL that validates |
| Collection.ProcessItem | data-prep/alice-aiml/download.py:379-389 | non-mappings raise, rejected URLs do nothing, and the rest run download_file under their target name |
| Collection.Targets | data-prep/alice-aiml/download.py:381-387 | the target names are exactly those of the entries that pass the URL guard |
| Collection.ProcessItems | data-prep/alice-aiml/download.py:379-398 | the crashed count is exactly the number of non-mapping entries and the invalid count exactly the number of mappings the URL guard rejects; every remaining entry moves exactly one of downloaded, skipped, errors; totals never shrink |
| Collection.DownloadCollection | data-prep/alice-aiml/download.py:360-413 | a non-mapping document raises; missing or empty files return without metadata; otherwise the crashed entries are exactly the non-mappings, the invalid ones exactly the mappings the URL guard rejects, and every other entry moves one of downloaded, skipped, errors |
| Collection.ItemsTouchOnlyTargets | data-prep/alice-aiml/download.py:379-389 | only records named by the entries' URLs change |
| Collection.ItemsKeepConsistency | data-prep/alice-aiml/download.py:379-398 | the items keep the metadata truthful about the directory |
| Collection.RejectedEntriesChangeNothing | data-prep/alice-aiml/download.py:381-384 | entries that all fail the guard move no counter and change neither metadata nor directory |
| Collection.CollectionMetadata | data-prep/alice-aiml/download.py:370-411 | the saved metadata is the loaded one changed only at target names, and truthful when the loaded one was |
| Governor.StepAsWritten | data-prep/alice-aiml/download.py:261-290 | as written, an item takes a governor slot for its attempt and a second one for its probe; neither gate is ever over-committed |
| Governor.NestedProbeDeadlocks | data-prep/alice-aiml/download.py:261-290 | with one governor slot, a single cached item is admitted, takes the slot and then can never enter its probe |
| Governor.FullGovernorStalls | data-prep/alice-aiml/download.py:376-379 | conditional only: if max_concurrent items held every governor slot and all were about to probe, no item could move; reachability with more than one slot is not claimed |
| Governor.Step | data-prep/alice-aiml/download.py:261-290 | with the probe under its attempt's slot, the governor bound max_concurrent and the sub-gate bound are kept |
| Governor.NeverStuck | data-prep/alice-aiml/download.py:261-290 | with the probe under its attempt's slot, some item can always move until every item has returned |

## Left out

- Network, file and console I/O: aiohttp sessions, aiofiles, `mkdir`, progress bars and messages. Responses and file outcomes are inputs.
- Concurrency: `asyncio.gather` and the 600-second timeout. Items run sequentially in list order. When the entries' target names and staging names are pairwise distinct, each item reads and writes only its own directory entries and metadata record, and the counters do not depend on completion order (`PipelineProperties.TallyOrderIndependent`), so any interleaving ends where the sequential run does. The gates themselves are modelled separately in `Governor`, and the sequential run presumes the corrected gate discipline there (see Findings).
- Entries that share a target name, or whose target name is another entry's staging name: concurrently they can stream into the same `.tmp` file, and the second one's existence check can run before the first one publishes. The sequential model does not capture these interleavings.
- SHA-256 is a symbolic digest; `urlparse`, YAML, JSON and XML parsing are their outcomes; reading a file as UTF-8 is `Unreadable` or its text.
- Failures of `unlink`, `mkdir` or `metadata.save()` themselves, and the `downloaded_at` timestamp.
- Metadata.Load: a metadata file that is not valid text in the locale encoding makes `json.load` raise UnicodeDecodeError, which `load` does not catch. The collection then aborts before any item runs and nothing is saved. `LoadOutcome` has no such case.
- Metadata.Load: JSON that decodes to something other than an object (`null`, a list) is kept. Every later `get_file_info` or `update_file_info` then raises inside the attempt, so a probing item fails, and a forced item can be renamed into place and still counted as an error. `Store` is always a mapping, so these cases are not modelled.
- Pipeline.ReadsBack: what validation reads back is tied to the streamed bytes only for whitespace-only bodies, which read back blank. For any other body the read and parse outcome is an input, and the model does not relate it to the bytes (no UTF-8 decoding or XML parsing).
- Metadata records are typed: a hand-edited JSON record that is an empty object or lacks fields is not representable.
- The empty derived file name, for a URL path with no named component (such as "/", "//" or "/."), would make the item's path the collection directory itself. The model only keys that item by the collection's name.
- Values outside the modelled shapes, such as a `files` value that is a non-empty string or a non-string `url`, are not modelled.
- `download_all`, `validate_existing_files`, `print_summary`, `create_gitignore` and the CLI.
- Pipeline.Retry: it does not state how the validation count arises beyond its bound. `PipelineProperties.RunValidationCount` states when it reaches the attempt count.
- LocalFiles.Lower: ASCII only. It agrees with Python's `lower()` for the comparisons with "aiml" and ".aiml", but not in general.

## Findings

| source | as written | input that shows it | evidently intended | confidence | as-written member | corrected member |
|---|---|---|---|---|---|---|
| data-prep/alice-aiml/download.py:261-290 | `download_file` holds a slot of `self.semaphore` for the whole attempt (line 290), and `check_file_needs_download`, called inside it, acquires the same semaphore again for the HEAD probe (line 261); `asyncio.Semaphore` is not re-entrant | `--max-concurrent 1`, not forced, one entry whose file is present and has a cached record: the probe waits forever for the slot its own caller holds, and only the 600-second timeout ends the run. Larger settings are not claimed: `Governor.FullGovernorStalls` is only a conditional statement about a full governor | one governor slot per in-flight operation, shared by the attempt's probe and its transfer, so the probe runs under the slot the attempt already holds | high; not executed | Governor.StepAsWritten, Governor.NestedProbeDeadlocks | Governor.Step, Governor.NeverStuck |

The item pipeline (`Pipeline.AttemptOnce`) sends the probe without waiting
at any gate, which is the corrected discipline.
