/**
  `validate_xml_file`: the pass/fail verdict on a downloaded document and
  the non-fatal warnings it prints. Reading the file as UTF-8 and parsing it
  with ElementTree are abstracted to their outcome.
 */
module XmlValidation {
  import opened LocalFiles

  /** A `<category>` element: whether it has a `<pattern>` and a `<template>` child. */
  datatype Category = Category(hasPattern: bool, hasTemplate: bool)

  /** `ET.fromstring`: a ParseError, or the root tag and every descendant
      `<category>` in document order (`root.findall('.//category')`). */
  datatype ParseResult = ParseError | Parsed(rootTag: string, categories: seq<Category>)

  /** Reading the file: an exception (I/O or decoding), or its text together
      with what parsing that text yields. */
  datatype ReadOutcome = Unreadable | Content(text: string, parse: ParseResult)

  /** The warnings printed for an `.aiml` file; `index` counts from 1. */
  datatype Warning = RootNotAiml(tag: string) | NoCategories | MissingPattern(index: nat) | MissingTemplate(index: nat)

  datatype Verdict = Verdict(valid: bool, warnings: seq<Warning>)

  /** How many leading categories are inspected for children. */
  const CategoriesChecked: nat := 3

  /** `str.isspace()` for one character: the characters `str.strip()` removes. */
  predicate PyWhitespace(c: char)
  {
    var n := c as int;
    || 0x09 <= n <= 0x0D || 0x1C <= n <= 0x20 || n == 0x85 || n == 0xA0 || n == 0x1680
    || 0x2000 <= n <= 0x200A || n == 0x2028 || n == 0x2029 || n == 0x202F || n == 0x205F || n == 0x3000
  }

  /** `not content.strip()`. */
  predicate Blank(text: string)
  {
    forall i :: 0 <= i < |text| ==> PyWhitespace(text[i])
  }

  /** Missing-child warnings for `cats`, the first of which is category number `from + 1`. */
  function ChildWarnings(cats: seq<Category>, from: nat): (ws: seq<Warning>)
    ensures |ws| <= 2 * |cats|
    ensures forall w :: w in ws ==> (w.MissingPattern? || w.MissingTemplate?) && from < w.index <= from + |cats|
    ensures forall i :: 0 <= i < |cats| ==> (MissingPattern(from + i + 1) in ws <==> !cats[i].hasPattern)
    ensures forall i :: 0 <= i < |cats| ==> (MissingTemplate(from + i + 1) in ws <==> !cats[i].hasTemplate)
    decreases |cats|
  {
    if |cats| == 0 then []
    else
      var rest := ChildWarnings(cats[1..], from + 1);
      assert forall i :: 1 <= i < |cats| ==> cats[i] == cats[1..][i - 1];
      assert MissingPattern(from + 1) !in rest && MissingTemplate(from + 1) !in rest;
      (if cats[0].hasPattern then [] else [MissingPattern(from + 1)])
      + (if cats[0].hasTemplate then [] else [MissingTemplate(from + 1)])
      + rest
  }

  /** The AIML-specific checks on a parsed document: root tag, presence of
      categories, and children of the first three categories. */
  function AimlWarnings(rootTag: string, cats: seq<Category>): (ws: seq<Warning>)
    ensures |ws| <= 1 + 2 * CategoriesChecked
    ensures forall w :: w in ws && (w.MissingPattern? || w.MissingTemplate?) ==>
              1 <= w.index <= (if |cats| < CategoriesChecked then |cats| else CategoriesChecked)
    ensures forall w :: w in ws && w.RootNotAiml? ==> w.tag == rootTag
    ensures RootNotAiml(rootTag) in ws <==> Lower(rootTag) != "aiml"
    ensures NoCategories in ws <==> |cats| == 0
    ensures forall i :: 0 <= i < |cats| && i < CategoriesChecked ==>
              (MissingPattern(i + 1) in ws <==> !cats[i].hasPattern)
    ensures forall i :: 0 <= i < |cats| && i < CategoriesChecked ==>
              (MissingTemplate(i + 1) in ws <==> !cats[i].hasTemplate)
  {
    var root := if Lower(rootTag) != "aiml" then [RootNotAiml(rootTag)] else [];
    if |cats| == 0 then root + [NoCategories]
    else
      var n := if |cats| < CategoriesChecked then |cats| else CategoriesChecked;
      var children := ChildWarnings(cats[..n], 0);
      assert forall i :: 0 <= i < n ==> cats[..n][i] == cats[i];
      assert RootNotAiml(rootTag) !in children && NoCategories !in children;
      root + children
  }

  /** `validate_xml_file(path)` where `fileName` is the path's last component. */
  function ValidateXmlFile(fileName: string, r: ReadOutcome): (v: Verdict)
    ensures v.valid <==> r.Content? && !Blank(r.text) && r.parse.Parsed?
    ensures !v.valid ==> v.warnings == []
    ensures Lower(Suffix(fileName)) != ".aiml" ==> v.warnings == []
    ensures v.valid && Lower(Suffix(fileName)) == ".aiml" ==> v.warnings == AimlWarnings(r.parse.rootTag, r.parse.categories)
    ensures |v.warnings| <= 1 + 2 * CategoriesChecked
  {
    match r
    case Unreadable => Verdict(false, [])
    case Content(text, parse) =>
      if Blank(text) then Verdict(false, [])
      else
        match parse
        case ParseError => Verdict(false, [])
        case Parsed(rootTag, cats) =>
          Verdict(true, if Lower(Suffix(fileName)) == ".aiml" then AimlWarnings(rootTag, cats) else [])
  }

  /** Warnings never decide the verdict: whatever the root tag and whatever
      categories a non-blank document parses into, it passes. */
  lemma WarningsAreNotFatal(fileName: string, text: string, rootTag: string, cats: seq<Category>,
                            rootTag': string, cats': seq<Category>)
    requires !Blank(text)
    ensures ValidateXmlFile(fileName, Content(text, Parsed(rootTag, cats))).valid
    ensures ValidateXmlFile(fileName, Content(text, Parsed(rootTag, cats))).valid
         == ValidateXmlFile(fileName, Content(text, Parsed(rootTag', cats'))).valid
  {
  }

  /** The root tag is compared case-insensitively: an `AIML` root draws no
      root warning. */
  lemma UpperCaseRootAccepted(cats: seq<Category>)
    ensures RootNotAiml("AIML") !in AimlWarnings("AIML", cats)
  {
    var l := Lower("AIML");
    assert l[0] == 'a' && l[1] == 'i' && l[2] == 'm' && l[3] == 'l';
    assert l == "aiml";
  }

  /** An `.aiml` file with a foreign root and no categories passes with
      exactly the two warnings about them. */
  lemma ForeignRootWithoutCategories(fileName: string, text: string)
    requires Lower(Suffix(fileName)) == ".aiml" && !Blank(text)
    ensures ValidateXmlFile(fileName, Content(text, Parsed("html", []))) == Verdict(true, [RootNotAiml("html"), NoCategories])
  {
    HtmlRootWithoutCategories();
  }

  /** The structure warnings of an `html` root without categories. */
  lemma HtmlRootWithoutCategories()
    ensures AimlWarnings("html", []) == [RootNotAiml("html"), NoCategories]
  {
    var l := Lower("html");
    assert l[0] == 'h';
    assert l != "aiml";
    assert AimlWarnings("html", []) == [RootNotAiml("html")] + [NoCategories];
  }
}
