/**
  URL handling of the downloader: `validate_url` and the local file name
  taken from the last component of the URL path. `urlparse` itself is not
  modelled; a URL carries the components it parses into, or the fact that
  parsing raised.
 */
module Urls {
  import opened Wrappers
  import opened LocalFiles

  /** The components `urlparse` yields that the downloader reads. */
  datatype UrlParts = Unparseable | Parts(scheme: string, netloc: string, path: string)

  /** A URL as written in a collection file, with its parse. */
  datatype Url = Url(text: string, parts: UrlParts)

  /** `validate_url`: parsing succeeded and scheme, network location and path
      are all non-empty. */
  predicate ValidateUrl(u: Url)
  {
    u.parts.Parts? && u.parts.scheme != "" && u.parts.netloc != "" && u.parts.path != ""
  }

  /** The guard in front of each item: the entry has a URL, it is non-empty,
      and it validates. */
  predicate Usable(url: Option<Url>)
  {
    url.Some? && url.value.text != "" && ValidateUrl(url.value)
  }

  /** `Path(urlparse(url).path).name`. */
  function DerivedFileName(u: Url): (name: string)
    requires ValidateUrl(u)
    ensures '/' !in name && name != "."
  {
    PathName(u.parts.path)
  }

  /** `(collection_dir / filename).name`, the name the item is stored and
      recorded under: the derived name, or the directory's own name when the
      derived name is empty. */
  function LocalName(collection: string, filename: string): (n: string)
    ensures filename != "" ==> n == filename
  {
    if filename == "" then collection else filename
  }

  /** A usable URL whose path ends in a plain segment is stored under exactly
      that segment. */
  lemma LocalNameOfUrl(collection: string, u: Url, dirs: string, seg: string)
    requires ValidateUrl(u) && u.parts.path == dirs + "/" + seg
    requires seg != "" && seg != "." && '/' !in seg
    ensures LocalName(collection, DerivedFileName(u)) == seg
  {
    PathNameOfChild(dirs, seg);
  }
}
