/**
  `FileMetadata`: the per-collection record of what was last downloaded,
  keyed by local file name. The JSON file behind it is abstracted to the
  outcome of reading and decoding it.
 */
module Metadata {
  import opened Wrappers
  import opened LocalFiles

  /** A SHA-256 digest, kept symbolic: two digests are equal exactly when the
      hashed contents are. */
  datatype Digest = Sha256(content: seq<uint8>)

  /** One entry: the validators seen, the content digest and the byte size. */
  datatype FileRecord = FileRecord(etag: Option<string>, lastModified: Option<string>, hash: Digest, size: nat)

  type Store = map<string, FileRecord>

  /** What happened when the metadata file was opened and decoded. */
  datatype LoadOutcome = Missing | OsError | JsonError | Decoded(data: Store)

  /** `load`: the decoded mapping, or the empty one when the file is missing,
      unreadable (OSError) or not valid JSON. */
  function Load(o: LoadOutcome): (s: Store)
    ensures o.Decoded? ==> s == o.data
    ensures !o.Decoded? ==> s == map[]
  {
    if o.Decoded? then o.data else map[]
  }

  /** `get_file_info`: the record for `filename`, or None for an unknown name. */
  function GetFileInfo(s: Store, filename: string): Option<FileRecord>
  {
    Get(s, filename)
  }

  /** `update_file_info`: replaces the entry for `filename` and nothing else. */
  function UpdateFileInfo(s: Store, filename: string, etag: Option<string>, lastModified: Option<string>,
                          hash: Digest, size: nat): (s': Store)
    ensures s'.Keys == s.Keys + {filename}
    ensures s'[filename] == FileRecord(etag, lastModified, hash, size)
    ensures forall n :: n in s && n != filename ==> s'[n] == s[n]
  {
    s[filename := FileRecord(etag, lastModified, hash, size)]
  }

  /** Reading back after an upsert: the new record for that name, the old
      answer for every other name. */
  lemma GetAfterUpdate(s: Store, filename: string, other: string, etag: Option<string>,
                       lastModified: Option<string>, hash: Digest, size: nat)
    ensures GetFileInfo(UpdateFileInfo(s, filename, etag, lastModified, hash, size), other)
         == if other == filename then Some(FileRecord(etag, lastModified, hash, size)) else GetFileInfo(s, other)
  {
  }

  /** The store describes the directory truthfully: wherever a record and a
      file both exist, the record's digest and size are those of the file. */
  ghost predicate Consistent(s: Store, dir: Dir)
  {
    forall n :: n in s && n in dir ==> s[n].hash == Sha256(dir[n]) && s[n].size == |dir[n]|
  }
}
