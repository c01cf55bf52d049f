/**
  HTTP exchanges as the downloader sees them: a status code, the three
  response headers it reads (ETag, Last-Modified, Content-Length) and, for a
  GET, the body as it arrives in chunks. Sessions, sockets and timeouts are
  outside the model; a transport failure is a value.
 */
module Http {
  import opened Wrappers
  import opened LocalFiles

  /** A Content-Length header that is present, as `int(...)` treats it: the
      empty string (falsy, so never converted), text that `int` accepts with
      its value, or text on which `int` raises ValueError. */
  datatype LengthField = EmptyLength | Numeral(n: int) | NotANumber(raw: string)

  /** The response headers the downloader consults; `None` is an absent header. */
  datatype Headers = Headers(etag: Option<string>, lastModified: Option<string>, contentLength: Option<LengthField>)

  /** Outcome of the conditional HEAD probe. */
  datatype ProbeOutcome = ProbeResponse(status: int, headers: Headers) | ProbeRaised

  /** A response body: the chunks delivered by `iter_chunked`, and whether the
      stream ended normally (false: an exception after those chunks). */
  datatype Body = Body(chunks: seq<seq<uint8>>, complete: bool)

  /** Outcome of the GET request. */
  datatype GetOutcome = GetRaised | GetResponse(status: int, headers: Headers, body: Body)

  /** A request put on the wire: a HEAD probe with its conditional headers, or a GET. */
  datatype Request = Head(conditions: map<string, string>) | GetRequest

  /** Python truthiness of an optional header string: present and non-empty. */
  predicate Truthy(s: Option<string>)
  {
    s.Some? && s.value != ""
  }

  /** Python's `a or b` on two optional strings: the first truthy one, else `b`. */
  function FirstTruthy(a: Option<string>, b: Option<string>): (r: Option<string>)
    ensures r == a || r == b
    ensures Truthy(r) <==> Truthy(a) || Truthy(b)
    ensures Truthy(a) ==> r == a
  {
    if Truthy(a) then a else b
  }

  /** The bytes of a body, in arrival order. */
  function Flatten(chunks: seq<seq<uint8>>): seq<uint8>
  {
    if |chunks| == 0 then [] else Flatten(chunks[..|chunks| - 1]) + chunks[|chunks| - 1]
  }

  /** The running total `file_size += len(chunk)` over all chunks. */
  function SumLengths(chunks: seq<seq<uint8>>): nat
  {
    if |chunks| == 0 then 0 else SumLengths(chunks[..|chunks| - 1]) + |chunks[|chunks| - 1]|
  }

  /** The byte count kept alongside the stream equals the length of what was written. */
  lemma {:induction false} FlattenLength(chunks: seq<seq<uint8>>)
    ensures |Flatten(chunks)| == SumLengths(chunks)
    decreases |chunks|
  {
    if |chunks| > 0 {
      FlattenLength(chunks[..|chunks| - 1]);
    }
  }
}
