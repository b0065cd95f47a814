/**
 * pandoc's argument vector, built from the ePub Conversion tab the way
 * `_build_epub_cmd` does, and a reader for the options that follow the
 * input files.
 */
module Epub {
  import opened Wrappers
  import opened Text
  import opened Forms
  import opened Discovery

  /** The form with every field the builder reads through `strip()` stripped. */
  function Stripped(f: EpubForm): EpubForm {
    f.(pandocPath := Trim(f.pandocPath), source := Trim(f.source), output := Trim(f.output),
       title := Trim(f.title), author := Trim(f.author), splitLevel := Trim(f.splitLevel))
  }

  /** The configured pandoc path, or the bare tool name for a search of PATH. */
  function Executable(g: EpubForm): string {
    if g.pandocPath != "" then g.pandocPath else "pandoc"
  }

  function OrElse(s: string, fallback: string): string {
    if s != "" then s else fallback
  }

  /** The files of the source folder pandoc is given, in sorted order. */
  function SourceFiles(g: EpubForm, h: Host): seq<string> {
    MdFiles(h.listDir(g.source))
  }

  /** Each file name joined onto the source folder. */
  function Inputs(g: EpubForm, files: seq<string>, h: Host): (paths: seq<string>)
    ensures |paths| == |files|
    ensures forall i :: 0 <= i < |files| ==> paths[i] == h.join(g.source, files[i])
  {
    if files == [] then [] else [h.join(g.source, files[0])] + Inputs(g, files[1..], h)
  }

  /** Output, metadata, table of contents and chapter split, in the order they are appended. */
  function Options(g: EpubForm): seq<string> {
    (if g.output != "" then ["-o", g.output] else [])
    + (["--metadata", "title=" + OrElse(g.title, "Substack Archive")]
    + (["--metadata", "author=" + OrElse(g.author, "Unknown")]
    + ((if g.toc then ["--toc"] else [])
    + ["--split-level=" + OrElse(g.splitLevel, "1")])))
  }

  /**
   * `_build_epub_cmd`: nothing when the source folder is not given, is not
   * a folder, or holds no Markdown files; otherwise pandoc, every Markdown
   * file of the folder in sorted order, then the options.
   */
  function Command(f: EpubForm, h: Host): (cmd: Option<seq<string>>)
    ensures var g := Stripped(f);
            cmd.None? <==> g.source == "" || !h.isDir(g.source) || SourceFiles(g, h) == []
    ensures var g := Stripped(f);
            var files := SourceFiles(g, h);
            cmd.Some? ==>
              && |cmd.value| == 1 + |files| + |Options(g)|
              && cmd.value[0] == Executable(g)
              && (forall i :: 0 <= i < |files| ==> cmd.value[1 + i] == h.join(g.source, files[i]))
              && cmd.value[1 + |files|..] == Options(g)
  {
    var g := Stripped(f);
    if g.source == "" || !h.isDir(g.source) then None
    else
      var files := SourceFiles(g, h);
      if files == [] then None
      else
        var cmd := [Executable(g)] + Inputs(g, files, h) + Options(g);
        assert cmd[1 + |files|..] == Options(g);
        Some(cmd)
  }

  // ---------------------------------------------------------------------
  // Reading the options back: what pandoc sees after the input files.
  // ---------------------------------------------------------------------

  /** The settings pandoc takes from the options of a conversion vector. */
  datatype Settings = Settings(
    output: Option<string>,
    title: Option<string>,
    author: Option<string>,
    toc: bool,
    splitLevel: Option<string>)

  const NoSettings := Settings(None, None, None, false, None)

  const SplitPrefix := "--split-level="

  /**
   * `--metadata KEY=VALUE`: the key runs up to the first '=' and the value
   * is the rest. Only the two keys the converter sets are recognised.
   */
  function WithMetadata(q: Settings, kv: string): Option<Settings> {
    var i := IndexOf(kv, '=');
    if i == |kv| then None
    else if kv[..i] == "title" then Some(q.(title := Some(kv[i + 1..])))
    else if kv[..i] == "author" then Some(q.(author := Some(kv[i + 1..])))
    else None
  }

  /** Reads options left to right; None for anything it does not know or a missing value. */
  function ReadOptions(args: seq<string>, q: Settings): Option<Settings>
    decreases |args|
  {
    if args == [] then Some(q)
    else if args[0] == "-o" then
      if |args| < 2 then None else ReadOptions(args[2..], q.(output := Some(args[1])))
    else if args[0] == "--metadata" then
      if |args| < 2 then None
      else match WithMetadata(q, args[1])
           case None => None
           case Some(q') => ReadOptions(args[2..], q')
    else if args[0] == "--toc" then ReadOptions(args[1..], q.(toc := true))
    else if StartsWith(args[0], SplitPrefix) then
      ReadOptions(args[1..], q.(splitLevel := Some(args[0][|SplitPrefix|..])))
    else None
  }

  /** What the (stripped) ePub tab asks pandoc for, with the builder's fallbacks. */
  function Requested(g: EpubForm): Settings {
    Settings(
      output := if g.output != "" then Some(g.output) else None,
      title := Some(if g.title != "" then g.title else "Substack Archive"),
      author := Some(if g.author != "" then g.author else "Unknown"),
      toc := g.toc,
      splitLevel := Some(if g.splitLevel != "" then g.splitLevel else "1"))
  }

  /** A metadata pair written as `key=value` reads back as that key and the whole value. */
  lemma MetadataRoundTrip(q: Settings, key: string, value: string)
    requires key == "title" || key == "author"
    ensures key == "title" ==> WithMetadata(q, key + "=" + value) == Some(q.(title := Some(value)))
    ensures key == "author" ==> WithMetadata(q, key + "=" + value) == Some(q.(author := Some(value)))
  {
    var kv := key + "=" + value;
    IndexOfBoundary(key, "=" + value, '=');
    assert kv == key + ("=" + value);
    assert kv[..|key|] == key;
    assert kv[|key| + 1..] == value;
  }

  /** The options read back as exactly the settings the form asks for. */
  lemma OptionsRoundTrip(g: EpubForm)
    ensures ReadOptions(Options(g), NoSettings) == Some(Requested(g))
  {
    ReadAll(g.output, OrElse(g.title, "Substack Archive"), OrElse(g.author, "Unknown"), g.toc, OrElse(g.splitLevel, "1"));
  }

  lemma ReadAll(out: string, title: string, author: string, toc: bool, level: string)
    ensures ReadOptions((if out != "" then ["-o", out] else [])
              + (["--metadata", "title=" + title] + (["--metadata", "author=" + author]
              + ((if toc then ["--toc"] else []) + ["--split-level=" + level]))), NoSettings)
         == Some(Settings(if out != "" then Some(out) else None, Some(title), Some(author), toc, Some(level)))
  {
    var split := ["--split-level=" + level];
    var tocPart := (if toc then ["--toc"] else []) + split;
    var authorPart := ["--metadata", "author=" + author] + tocPart;
    var titlePart := ["--metadata", "title=" + title] + authorPart;
    ReadOutput(out, titlePart, NoSettings);
    var q0 := NoSettings.(output := if out != "" then Some(out) else None);
    ReadTitle(title, authorPart, q0);
    var q1 := q0.(title := Some(title));
    ReadAuthor(author, tocPart, q1);
    var q2 := q1.(author := Some(author));
    ReadToc(toc, split, q2);
    SplitRoundTrip(level, q2.(toc := toc));
  }

  lemma ReadOutput(out: string, rest: seq<string>, q: Settings)
    requires q.output.None?
    ensures ReadOptions((if out != "" then ["-o", out] else []) + rest, q)
         == ReadOptions(rest, q.(output := if out != "" then Some(out) else None))
  {
    if out != "" {
      assert (["-o", out] + rest)[2..] == rest;
    } else {
      assert [] + rest == rest;
    }
  }

  lemma ReadTitle(value: string, rest: seq<string>, q: Settings)
    ensures ReadOptions(["--metadata", "title=" + value] + rest, q) == ReadOptions(rest, q.(title := Some(value)))
  {
    assert "title" + "=" + value == "title=" + value;
    MetadataRoundTrip(q, "title", value);
    assert (["--metadata", "title=" + value] + rest)[2..] == rest;
  }

  lemma ReadAuthor(value: string, rest: seq<string>, q: Settings)
    ensures ReadOptions(["--metadata", "author=" + value] + rest, q) == ReadOptions(rest, q.(author := Some(value)))
  {
    assert "author" + "=" + value == "author=" + value;
    MetadataRoundTrip(q, "author", value);
    assert (["--metadata", "author=" + value] + rest)[2..] == rest;
  }

  lemma ReadToc(toc: bool, rest: seq<string>, q: Settings)
    requires !q.toc
    ensures ReadOptions((if toc then ["--toc"] else []) + rest, q) == ReadOptions(rest, q.(toc := toc))
  {
    if toc {
      assert (["--toc"] + rest)[1..] == rest;
    } else {
      assert [] + rest == rest;
    }
  }

  lemma SplitRoundTrip(level: string, q: Settings)
    ensures ReadOptions(["--split-level=" + level], q) == Some(q.(splitLevel := Some(level)))
  {
    var a := "--split-level=" + level;
    var none: seq<string> := [];
    assert a[..|SplitPrefix|] == SplitPrefix;
    assert a[|SplitPrefix|..] == level;
    assert [a][1..] == none;
  }

  /**
   * A vector that is built reads back completely: the executable, the
   * sorted Markdown files joined onto the folder, then options meaning
   * exactly what the form asks for.
   */
  lemma RoundTrip(f: EpubForm, h: Host)
    requires Command(f, h).Some?
    ensures var g := Stripped(f);
            var cmd := Command(f, h).value;
            var n := |SourceFiles(g, h)|;
            ReadOptions(cmd[1 + n..], NoSettings) == Some(Requested(g))
  {
    OptionsRoundTrip(Stripped(f));
  }

  /**
   * The inputs are the folder's Markdown files, each once per listing
   * entry, in ascending name order.
   */
  lemma InputsAreMarkdown(f: EpubForm, h: Host, i: nat)
    requires Command(f, h).Some?
    requires i < |SourceFiles(Stripped(f), h)|
    ensures var g := Stripped(f);
            var files := SourceFiles(g, h);
            && Command(f, h).value[1 + i] == h.join(g.source, files[i])
            && h.listDir(g.source).Some? && files[i] in h.listDir(g.source).value
            && IsMarkdownName(files[i])
  {
    var g := Stripped(f);
    MdFilesMembership(h.listDir(g.source), SourceFiles(g, h)[i]);
  }
}
