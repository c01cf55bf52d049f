/**
  `check_file_needs_download`: decides whether an item must be fetched and
  which validators a 200 probe reported. The HEAD probe's outcome is an
  input; whether the probe is sent at all, and with which conditional
  headers, is part of the decision.
 */
module ChangeDetector {
  import opened Wrappers
  import opened Http
  import opened Metadata

  /** The `(needs_download, headers_info)` pair, plus the conditional headers
      of the HEAD request when one was sent. `info == None` is the empty dict. */
  datatype Decision = Decision(needsDownload: bool, info: Option<Headers>, sent: Option<map<string, string>>)

  /** The conditional headers built from a cached record: one per truthy validator. */
  function ConditionalHeaders(rec: FileRecord): (h: map<string, string>)
    ensures "If-None-Match" in h <==> Truthy(rec.etag)
    ensures "If-None-Match" in h ==> h["If-None-Match"] == rec.etag.value
    ensures "If-Modified-Since" in h <==> Truthy(rec.lastModified)
    ensures "If-Modified-Since" in h ==> h["If-Modified-Since"] == rec.lastModified.value
    ensures forall k :: k in h ==> k == "If-None-Match" || k == "If-Modified-Since"
  {
    var h := if Truthy(rec.etag) then map["If-None-Match" := rec.etag.value] else map[];
    if Truthy(rec.lastModified) then h["If-Modified-Since" := rec.lastModified.value] else h
  }

  predicate Is304(p: ProbeOutcome)
  {
    p.ProbeResponse? && p.status == 304
  }

  predicate Is200(p: ProbeOutcome)
  {
    p.ProbeResponse? && p.status == 200
  }

  /** The decision for one item, given the force flag, whether the local file
      exists, its cached record and what the probe would answer. */
  function CheckFileNeedsDownload(force: bool, localExists: bool, cached: Option<FileRecord>,
                                  probe: ProbeOutcome): (d: Decision)
    ensures d.sent.Some? <==> !force && localExists && cached.Some?
    ensures d.sent.Some? ==> d.sent.value == ConditionalHeaders(cached.value)
    ensures !d.needsDownload <==> d.sent.Some? && Is304(probe)
    ensures d.info.Some? <==> d.sent.Some? && Is200(probe)
    ensures d.info.Some? ==> d.info.value == probe.headers
  {
    if force then Decision(true, None, None)
    else if !localExists then Decision(true, None, None)
    else if cached.None? then Decision(true, None, None)
    else
      var h := ConditionalHeaders(cached.value);
      match probe
      case ProbeRaised => Decision(true, None, Some(h))
      case ProbeResponse(status, headers) =>
        if status == 304 then Decision(false, None, Some(h))
        else if status == 200 then Decision(true, Some(headers), Some(h))
        else Decision(true, None, Some(h))
  }

  /** The force flag and the two missing-state checks answer `(True, {})`
      without sending a probe, whatever the server would have said. */
  lemma EarlyExits(force: bool, localExists: bool, cached: Option<FileRecord>, probe: ProbeOutcome)
    requires force || !localExists || cached.None?
    ensures CheckFileNeedsDownload(force, localExists, cached, probe) == Decision(true, None, None)
  {
  }

  /** A failed probe, or any status other than 200 and 304, never prevents a
      download and reports no validators. */
  lemma ProbeFailureStillDownloads(force: bool, localExists: bool, cached: Option<FileRecord>, probe: ProbeOutcome)
    requires !Is304(probe) && !Is200(probe)
    ensures CheckFileNeedsDownload(force, localExists, cached, probe).needsDownload
    ensures CheckFileNeedsDownload(force, localExists, cached, probe).info == None
  {
  }
}
