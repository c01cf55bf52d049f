/**
  The local side of one collection: its directory as a map from entry name to
  contents, and the few pieces of `pathlib` behaviour the downloader relies on
  (`PurePosixPath.name`, `.suffix`, `with_suffix`) and `str.endswith`.
 */
module LocalFiles {
  import opened Wrappers

  newtype uint8 = x: int | 0 <= x < 256

  /** The entries of one collection directory. */
  type Dir = map<string, seq<uint8>>

  /** What a directory holds under `name`, if anything. */
  function Entry(dir: Dir, name: string): Option<seq<uint8>>
  {
    Get(dir, name)
  }

  /** `if path.exists(): path.unlink()`: the entry is gone afterwards, nothing else changes. */
  function Unlink(dir: Dir, name: string): (d: Dir)
    ensures name !in d
    ensures forall n :: n != name ==> Entry(d, n) == Entry(dir, n)
  {
    dir - {name}
  }

  /** `Path(from).rename(to)`: the contents move to `to`, replacing what was
      there, and `from` disappears. */
  function Rename(dir: Dir, from: string, to: string): (d: Dir)
    requires from in dir && from != to
    ensures from !in d
    ensures Entry(d, to) == Some(dir[from])
    ensures forall n :: n != from && n != to ==> Entry(d, n) == Entry(dir, n)
  {
    (dir - {from})[to := dir[from]]
  }

  /** Python's `s.rfind(c)`: the index of the last occurrence of `c`, or -1. */
  function RFind(s: string, c: char): (i: int)
    ensures -1 <= i < |s|
    ensures 0 <= i ==> s[i] == c
    ensures forall j :: i < j < |s| ==> s[j] != c
  {
    if |s| == 0 then -1
    else if s[|s| - 1] == c then |s| - 1
    else RFind(s[..|s| - 1], c)
  }

  /** `str.endswith`. */
  predicate EndsWith(s: string, suffix: string)
  {
    |suffix| <= |s| && s[|s| - |suffix|..] == suffix
  }

  /** ASCII lower-casing. For the only comparisons the downloader makes
      (against ".aiml" and "aiml") it agrees with Python's Unicode `lower()`:
      no non-ASCII character lower-cases to a single ASCII letter of those words. */
  function Lower(s: string): (r: string)
    ensures |r| == |s|
    ensures forall i :: 0 <= i < |s| && 'A' <= s[i] <= 'Z' ==> r[i] as int == s[i] as int + 32
    ensures forall i :: 0 <= i < |s| && !('A' <= s[i] <= 'Z') ==> r[i] == s[i]
  {
    if |s| == 0 then ""
    else
      var c := s[0];
      var lc := if 'A' <= c <= 'Z' then (c as int + 32) as char else c;
      [lc] + Lower(s[1..])
  }

  /** `PurePosixPath(p).name`: the last component of `p` once empty and "."
      components (doubled slashes, a trailing slash, "/.") are dropped, or ""
      when there is none. */
  function PathName(p: string): (n: string)
    ensures '/' !in n
    ensures n != "."
    ensures |n| <= |p|
    decreases |p|
  {
    var i := RFind(p, '/');
    var tail := p[i + 1..];
    if tail != "" && tail != "." then tail
    else if i < 0 then ""
    else PathName(p[..i])
  }

  /** `PurePosixPath(name).suffix`: from the last dot, when that dot is
      neither the first nor the last character; otherwise "". */
  function Suffix(name: string): (r: string)
    ensures r == "" || (2 <= |r| < |name| && r[0] == '.' && EndsWith(name, r) && '.' !in r[1..])
  {
    var i := RFind(name, '.');
    if 0 < i < |name| - 1 then name[i..] else ""
  }

  /** The staging path of a download: `p.with_suffix(p.suffix + ".tmp")`,
      which for every non-empty name is the name with ".tmp" appended. */
  function StagingName(name: string): (t: string)
    ensures t != name
    ensures EndsWith(t, ".tmp")
  {
    name + ".tmp"
  }

  /** A final name that is a plain segment is what `PathName` returns for any
      path ending in that segment. */
  lemma PathNameOfChild(p: string, seg: string)
    requires seg != "" && seg != "." && '/' !in seg
    ensures PathName(p + "/" + seg) == seg
  {
    var q := p + "/" + seg;
    var i := RFind(q, '/');
    assert q[|p|] == '/';
    assert i == |p|;
    assert q[i + 1..] == seg;
  }

  /** A trailing slash does not change the name. */
  lemma PathNameIgnoresTrailingSlash(p: string)
    ensures PathName(p + "/") == PathName(p)
  {
    var q := p + "/";
    assert RFind(q, '/') == |p|;
    assert q[..|p|] == p;
  }

  /** Nor does a trailing "/." component. */
  lemma PathNameIgnoresDotComponent(p: string)
    ensures PathName(p + "/.") == PathName(p)
  {
    var q := p + "/.";
    var i := RFind(q, '/');
    assert q[|p|] == '/';
    assert i == |p|;
    assert q[i + 1..] == ".";
    assert q[..|p|] == p;
  }

  /** The staging name never carries the ".aiml" suffix: either its suffix is
      ".tmp" or, for the empty name, there is none. */
  lemma StagingSuffixIsNotAiml(name: string)
    ensures Suffix(StagingName(name)) == (if name == "" then "" else ".tmp")
    ensures Lower(Suffix(StagingName(name))) != ".aiml"
  {
    var t := StagingName(name);
    var i := RFind(t, '.');
    assert t[|name|] == '.';
    assert t[|name| + 1] == 't' && t[|name| + 2] == 'm' && t[|name| + 3] == 'p';
    assert i == |name|;
    if name != "" {
      assert t[i..] == ".tmp";
      var l := Lower(".tmp");
      assert l[1] == 't';
    }
  }
}
