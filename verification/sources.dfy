/**
  `load_source_files`: which collection files are read, which requested
  names select them, and when loading fails as a whole. Listing the sources
  directory and decoding YAML are not modelled; each `*.yaml` file arrives,
  in listing order, with the outcome of opening and decoding it.
 */
module Sources {
  import opened Wrappers
  import opened Urls

  /** One element of a collection's `files` list: a mapping with an optional
      `url`, or something else, on which `.get` raises. */
  datatype FileEntry = NotAMapping | UrlEntry(url: Option<Url>)

  /** The decoded document of a collection file: a mapping whose `files`
      key is absent, null or a list; or any other YAML value (including an
      empty document), which the collection step cannot `.get` from. */
  datatype Document = OtherValue | Mapping(files: Option<seq<FileEntry>>)

  /** Opening the file raised (OSError, which is not caught), decoding it
      raised a YAML error (which is caught), or it decoded to a document. */
  datatype YamlOutcome = Unopenable | YamlError | Loaded(doc: Document)

  /** A `*.yaml` file of the sources directory: its stem and what loading it yields. */
  datatype SourceFile = SourceFile(stem: string, yaml: YamlOutcome)

  /** One loaded collection: the file's stem and its document. */
  datatype Collection = Collection(name: string, doc: Document)

  datatype LoadError =
    | SourcesDirMissing
    | Unreadable(stem: string)
    | NoValidCollections(available: seq<string>)

  /** The filter: no requested names (None or an empty list) selects every
      file; otherwise a file is selected when its stem is requested. */
  predicate Selected(requested: seq<string>, stem: string)
  {
    |requested| == 0 || stem in requested
  }

  /** The stems of all listed files, in listing order. */
  function Stems(files: seq<SourceFile>): (ss: seq<string>)
    ensures |ss| == |files|
    ensures forall i :: 0 <= i < |files| ==> ss[i] == files[i].stem
  {
    seq(|files|, i requires 0 <= i < |files| => files[i].stem)
  }

  /** No selected file before position `i` is unopenable. */
  predicate FirstUnopenable(files: seq<SourceFile>, requested: seq<string>, i: int)
    requires 0 <= i <= |files|
  {
    forall j :: 0 <= j < i ==> !(files[j].yaml.Unopenable? && Selected(requested, files[j].stem))
  }

  /** The loop over the listed files: unselected files and YAML errors are
      passed over, a selected file that cannot be opened aborts the loop, and
      every other selected file contributes its document. */
  function Gather(files: seq<SourceFile>, requested: seq<string>): (r: Result<seq<Collection>, string>)
    ensures r.Failure? <==> exists s :: SourceFile(s, Unopenable) in files && Selected(requested, s)
    ensures r.Failure? ==> exists i :: 0 <= i < |files| && files[i] == SourceFile(r.error, Unopenable)
                                       && Selected(requested, r.error) && FirstUnopenable(files, requested, i)
    ensures r.Success? ==>
              forall c :: c in r.value <==> SourceFile(c.name, Loaded(c.doc)) in files && Selected(requested, c.name)
    decreases |files|
  {
    if |files| == 0 then Success([])
    else
      var f := files[0];
      var rest := Gather(files[1..], requested);
      assert forall g :: g in files <==> g == f || g in files[1..];
      if !Selected(requested, f.stem) then rest
      else match f.yaml
        case Unopenable => Failure(f.stem)
        case YamlError => rest
        case Loaded(doc) =>
          if rest.Failure? then rest else Success([Collection(f.stem, doc)] + rest.value)
  }

  /** `load_source_files(collections)`, with `requested` empty standing for
      both None and the empty list. */
  function LoadSourceFiles(dirExists: bool, files: seq<SourceFile>, requested: seq<string>)
    : (r: Result<seq<Collection>, LoadError>)
    ensures r == Failure(SourcesDirMissing) <==> !dirExists
    ensures r.Success? <==>
              && dirExists
              && (forall s :: SourceFile(s, Unopenable) in files ==> !Selected(requested, s))
              && (exists c: Collection :: SourceFile(c.name, Loaded(c.doc)) in files && Selected(requested, c.name))
    ensures r.Success? ==>
              forall c :: c in r.value <==> SourceFile(c.name, Loaded(c.doc)) in files && Selected(requested, c.name)
    ensures r.Failure? && r.error.Unreadable? ==>
              exists i :: 0 <= i < |files| && files[i] == SourceFile(r.error.stem, Unopenable)
                          && Selected(requested, r.error.stem) && FirstUnopenable(files, requested, i)
    ensures dirExists && (exists s :: SourceFile(s, Unopenable) in files && Selected(requested, s)) ==>
              r.Failure? && r.error.Unreadable?
    ensures r.Failure? && r.error.NoValidCollections? ==> r.error.available == Stems(files)
  {
    if !dirExists then Failure(SourcesDirMissing)
    else match Gather(files, requested)
      case Failure(s) => Failure(Unreadable(s))
      case Success(cs) =>
        if |cs| == 0 then Failure(NoValidCollections(Stems(files)))
        else
          assert cs[0] in cs;
          Success(cs)
  }

  /** Gathering reads a requested-names list only through `Selected`. */
  lemma {:induction false} GatherFollowsSelection(files: seq<SourceFile>, requested: seq<string>, requested': seq<string>)
    requires forall f :: f in files ==> (Selected(requested, f.stem) <==> Selected(requested', f.stem))
    ensures Gather(files, requested) == Gather(files, requested')
    decreases |files|
  {
    if |files| > 0 {
      assert files[0] in files;
      assert forall f :: f in files[1..] ==> f in files;
      GatherFollowsSelection(files[1..], requested, requested');
    }
  }

  /** Requesting no names selects every file: the collections loaded are
      exactly the files that decoded. */
  lemma NoRequestSelectsAll(files: seq<SourceFile>)
    requires forall s :: SourceFile(s, Unopenable) !in files
    ensures Gather(files, []).Success?
    ensures forall c :: c in Gather(files, []).value <==> SourceFile(c.name, Loaded(c.doc)) in files
  {
  }

  /** Once at least one name is requested, a further name that matches no
      file changes nothing: unknown names are passed over silently. */
  lemma UnknownNameIgnored(dirExists: bool, files: seq<SourceFile>, requested: seq<string>, unknown: string)
    requires |requested| > 0
    requires forall f :: f in files ==> f.stem != unknown
    ensures LoadSourceFiles(dirExists, files, requested + [unknown]) == LoadSourceFiles(dirExists, files, requested)
  {
    forall f | f in files
      ensures Selected(requested + [unknown], f.stem) <==> Selected(requested, f.stem)
    {
      assert f.stem in requested + [unknown] <==> f.stem in requested || f.stem == unknown;
    }
    GatherFollowsSelection(files, requested + [unknown], requested);
  }

  /** If no requested name matches a file, loading fails and lists every
      available stem. */
  lemma OnlyUnknownNamesFail(files: seq<SourceFile>, requested: seq<string>)
    requires |requested| > 0
    requires forall f :: f in files ==> f.stem !in requested
    ensures LoadSourceFiles(true, files, requested) == Failure(NoValidCollections(Stems(files)))
  {
  }
}
