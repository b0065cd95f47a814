/**
 * The downloader's argument vector, built from the Download tab the way
 * `_build_download_cmd` does, and a reader for such vectors in which each
 * option that takes a value takes the next element.
 */
module Download {
  import opened Wrappers
  import opened Text
  import opened Forms

  /**
   * The form with every field the builder reads through `strip()` stripped;
   * the image quality and the cookie name are read as they are.
   */
  function Stripped(f: DownloadForm): DownloadForm {
    f.(exePath := Trim(f.exePath), url := Trim(f.url), outputDir := Trim(f.outputDir),
       afterDate := Trim(f.afterDate), beforeDate := Trim(f.beforeDate),
       imagesDir := Trim(f.imagesDir), fileExtensions := Trim(f.fileExtensions), filesDir := Trim(f.filesDir),
       rate := Trim(f.rate), cookieValue := Trim(f.cookieValue))
  }

  /** The configured downloader path, or the bare tool name for a search of PATH. */
  function Executable(g: DownloadForm): string {
    if g.exePath != "" then g.exePath else "sbstck-dl"
  }

  /** `[option, value]` when `present`, nothing otherwise. */
  function Optional(present: bool, option: string, value: string): seq<string> {
    if present then [option, value] else []
  }

  /** `[option]` when `present`, nothing otherwise. */
  function Switch(present: bool, option: string): seq<string> {
    if present then [option] else []
  }

  /** Date bounds, each only when the filter is on and the bound is non-empty. */
  function DateFlags(g: DownloadForm): seq<string> {
    if g.datesEnabled then Optional(g.afterDate != "", "--after", g.afterDate) + Optional(g.beforeDate != "", "--before", g.beforeDate)
    else []
  }

  /** Image options; the folder only when it is not the default "images". */
  function ImageFlags(g: DownloadForm): seq<string> {
    if g.downloadImages then
      ["--download-images"] + (["--image-quality", g.imageQuality]
        + Optional(g.imagesDir != "" && g.imagesDir != "images", "--images-dir", g.imagesDir))
    else []
  }

  /** Attachment options; the folder only when it is not the default "files". */
  function FileFlags(g: DownloadForm): seq<string> {
    if g.downloadFiles then
      ["--download-files"] + (Optional(g.fileExtensions != "", "--file-extensions", g.fileExtensions)
        + Optional(g.filesDir != "" && g.filesDir != "files", "--files-dir", g.filesDir))
    else []
  }

  /** A rate that is absent, exactly "1", or not a float is left out without complaint. */
  function RateFlags(g: DownloadForm, h: Host): seq<string> {
    if g.rate != "" && g.rate != "1" then
      match h.parseFloat(g.rate)
      case Some(x) => ["-r", h.formatFloat(x)]
      case None => []
    else []
  }

  /** The cookie pair, present exactly when a cookie value is given. */
  function CookieFlags(g: DownloadForm): seq<string> {
    if g.cookieValue != "" then ["--cookie_name", g.cookieName, "--cookie_val", g.cookieValue] else []
  }

  /** Every option but the cookie pair, for the stripped form `g`, in the order they are appended. */
  function Options(g: DownloadForm, h: Host): seq<string> {
    Optional(g.url != "", "--url", g.url)
    + (Optional(g.outputDir != "", "-o", g.outputDir)
    + (["-f", FormatCode(g.format)]
    + (DateFlags(g)
    + AfterDates(g, h))))
  }

  /** Everything after `download`: the options, then the cookie pair last. */
  function Arguments(g: DownloadForm, h: Host): seq<string> {
    Options(g, h) + CookieFlags(g)
  }

  /** `_build_download_cmd`: the full argument vector. It is built for every form. */
  function Command(f: DownloadForm, h: Host): (cmd: seq<string>)
    ensures |cmd| >= 4 && cmd[0] == Executable(Stripped(f)) && cmd[1] == "download"
  {
    var g := Stripped(f);
    [Executable(g), "download"] + Arguments(g, h)
  }

  // ---------------------------------------------------------------------
  // Reading a vector back: an option that takes a value takes the next element.
  // ---------------------------------------------------------------------

  /** The request a downloader argument vector expresses. */
  datatype Request = Request(
    executable: string,
    url: Option<string>,
    outputDir: Option<string>,
    format: Option<string>,
    after: Option<string>,
    before: Option<string>,
    downloadImages: bool,
    imageQuality: Option<string>,
    imagesDir: Option<string>,
    downloadFiles: bool,
    fileExtensions: Option<string>,
    filesDir: Option<string>,
    addSourceUrl: bool,
    createArchive: bool,
    rate: Option<string>,
    verbose: bool,
    dryRun: bool,
    cookieName: Option<string>,
    cookieValue: Option<string>)

  function NoOptions(exe: string): Request {
    Request(exe, None, None, None, None, None, false, None, None, false, None, None,
            false, false, None, false, false, None, None)
  }

  /** The downloader's options that take the next element as their value. */
  const ValueOptions: set<string> := {
    "--url", "-o", "-f", "--after", "--before", "--image-quality", "--images-dir",
    "--file-extensions", "--files-dir", "-r", "--cookie_name", "--cookie_val"}

  /** The downloader's options that stand alone. */
  const SwitchOptions: set<string> := {
    "--download-images", "--download-files", "--add-source-url", "--create-archive", "-v", "-d"}

  function WithValue(r: Request, option: string, v: string): Request
    requires option in ValueOptions
  {
    if option == "--url" then r.(url := Some(v))
    else if option == "-o" then r.(outputDir := Some(v))
    else if option == "-f" then r.(format := Some(v))
    else if option == "--after" then r.(after := Some(v))
    else if option == "--before" then r.(before := Some(v))
    else if option == "--image-quality" then r.(imageQuality := Some(v))
    else if option == "--images-dir" then r.(imagesDir := Some(v))
    else if option == "--file-extensions" then r.(fileExtensions := Some(v))
    else if option == "--files-dir" then r.(filesDir := Some(v))
    else if option == "-r" then r.(rate := Some(v))
    else if option == "--cookie_name" then r.(cookieName := Some(v))
    else r.(cookieValue := Some(v))
  }

  function WithSwitch(r: Request, option: string): Request
    requires option in SwitchOptions
  {
    if option == "--download-images" then r.(downloadImages := true)
    else if option == "--download-files" then r.(downloadFiles := true)
    else if option == "--add-source-url" then r.(addSourceUrl := true)
    else if option == "--create-archive" then r.(createArchive := true)
    else if option == "-v" then r.(verbose := true)
    else r.(dryRun := true)
  }

  /**
   * Reads options left to right, in any order; an option taking a value
   * consumes the next element whatever it looks like. None for an unknown
   * option or a value option at the very end.
   */
  function ParseOptions(args: seq<string>, r: Request): Option<Request>
    decreases |args|
  {
    if args == [] then Some(r)
    else if args[0] in ValueOptions then
      if |args| < 2 then None else ParseOptions(args[2..], WithValue(r, args[0], args[1]))
    else if args[0] in SwitchOptions then ParseOptions(args[1..], WithSwitch(r, args[0]))
    else None
  }

  /** An argument vector read as `<exe> download <options>`. */
  function Parse(cmd: seq<string>): Option<Request> {
    if |cmd| >= 2 && cmd[1] == "download" then ParseOptions(cmd[2..], NoOptions(cmd[0])) else None
  }

  /**
   * What the (stripped) Download tab asks for, rule by rule: which options
   * are present and with which values.
   */
  function Requested(g: DownloadForm, h: Host): Request {
    Request(
      executable := Executable(g),
      url := if g.url != "" then Some(g.url) else None,
      outputDir := if g.outputDir != "" then Some(g.outputDir) else None,
      format := Some(FormatCode(g.format)),
      after := if g.datesEnabled && g.afterDate != "" then Some(g.afterDate) else None,
      before := if g.datesEnabled && g.beforeDate != "" then Some(g.beforeDate) else None,
      downloadImages := g.downloadImages,
      imageQuality := if g.downloadImages then Some(g.imageQuality) else None,
      imagesDir := if g.downloadImages && g.imagesDir != "" && g.imagesDir != "images" then Some(g.imagesDir) else None,
      downloadFiles := g.downloadFiles,
      fileExtensions := if g.downloadFiles && g.fileExtensions != "" then Some(g.fileExtensions) else None,
      filesDir := if g.downloadFiles && g.filesDir != "" && g.filesDir != "files" then Some(g.filesDir) else None,
      addSourceUrl := g.addSourceUrl,
      createArchive := g.createArchive,
      rate := if g.rate != "" && g.rate != "1" && h.parseFloat(g.rate).Some?
              then Some(h.formatFloat(h.parseFloat(g.rate).value)) else None,
      verbose := g.verbose,
      dryRun := g.dryRun,
      cookieName := if g.cookieValue != "" then Some(g.cookieName) else None,
      cookieValue := if g.cookieValue != "" then Some(g.cookieValue) else None)
  }

  /** What the Download tab asks for. */
  function Intent(f: DownloadForm, h: Host): Request {
    Requested(Stripped(f), h)
  }

  /** A prefix that parses completely leaves the parser ready for what follows. */
  lemma {:induction false} ParseOptionsAppend(a: seq<string>, b: seq<string>, r: Request, r': Request)
    requires ParseOptions(a, r) == Some(r')
    ensures ParseOptions(a + b, r) == ParseOptions(b, r')
    decreases |a|
  {
    if a == [] {
      assert a + b == b;
    } else if a[0] in ValueOptions {
      assert (a + b)[2..] == a[2..] + b;
      ParseOptionsAppend(a[2..], b, WithValue(r, a[0], a[1]), r');
    } else {
      assert (a + b)[1..] == a[1..] + b;
      ParseOptionsAppend(a[1..], b, WithSwitch(r, a[0]), r');
    }
  }

  lemma ParseValueOption(o: string, v: string, rest: seq<string>, r: Request)
    requires o in ValueOptions
    ensures ParseOptions([o, v] + rest, r) == ParseOptions(rest, WithValue(r, o, v))
  {
    assert ([o, v] + rest)[2..] == rest;
  }

  lemma ParseSwitchOption(o: string, rest: seq<string>, r: Request)
    requires o in SwitchOptions
    ensures ParseOptions([o] + rest, r) == ParseOptions(rest, WithSwitch(r, o))
  {
    OptionKindsDisjoint();
    assert ([o] + rest)[1..] == rest;
  }

  /** An option pair present only when `present` holds. */
  lemma ParseOptionalValue(present: bool, o: string, v: string, rest: seq<string>, r: Request)
    requires o in ValueOptions
    ensures ParseOptions((if present then [o, v] else []) + rest, r)
         == ParseOptions(rest, if present then WithValue(r, o, v) else r)
  {
    if present {
      ParseValueOption(o, v, rest, r);
    } else {
      assert [] + rest == rest;
    }
  }

  /** A switch present only when `present` holds. */
  lemma ParseOptionalSwitch(present: bool, o: string, rest: seq<string>, r: Request)
    requires o in SwitchOptions
    ensures ParseOptions((if present then [o] else []) + rest, r)
         == ParseOptions(rest, if present then WithSwitch(r, o) else r)
  {
    if present {
      ParseSwitchOption(o, rest, r);
    } else {
      assert [] + rest == rest;
    }
  }

  lemma OptionKindsDisjoint()
    ensures ValueOptions !! SwitchOptions
  {
  }

  /**
   * The built vector reads back as exactly the request the form asks for:
   * every value sits behind its own option and nothing else is present.
   */
  lemma RoundTrip(f: DownloadForm, h: Host)
    ensures Parse(Command(f, h)) == Some(Intent(f, h))
  {
    var g := Stripped(f);
    assert Command(f, h)[2..] == Arguments(g, h);
    ArgumentsRoundTrip(g, h);
  }

  lemma ArgumentsRoundTrip(g: DownloadForm, h: Host)
    ensures ParseOptions(Arguments(g, h), NoOptions(Executable(g))) == Some(Requested(g, h))
  {
    var r0 := NoOptions(Executable(g));
    var rb := TailFields(g, h, FileFields(g, ImageFields(g, DateFields(g, HeadFields(g, r0)))));
    OptionsRoundTrip(g, h);
    ParseOptionsAppend(Options(g, h), CookieFlags(g), r0, rb);
    CookieOptions(g, rb);
    RequestedBySections(g, h);
  }

  lemma OptionsRoundTrip(g: DownloadForm, h: Host)
    ensures ParseOptions(Options(g, h), NoOptions(Executable(g)))
         == Some(TailFields(g, h, FileFields(g, ImageFields(g, DateFields(g, HeadFields(g, NoOptions(Executable(g))))))))
  {
    var s7 := Switch(g.addSourceUrl, "--add-source-url") + (Switch(g.createArchive, "--create-archive")
      + (RateFlags(g, h) + (Switch(g.verbose, "-v") + Switch(g.dryRun, "-d"))));
    var s6 := FileFlags(g) + s7;
    var s5 := ImageFlags(g) + s6;
    var s4 := DateFlags(g) + s5;
    var r0 := NoOptions(Executable(g));
    HeadOptions(g, s4, r0);
    var r3 := HeadFields(g, r0);
    DateOptions(g, s5, r3);
    var r4 := DateFields(g, r3);
    ImageOptions(g, s6, r4);
    var r5 := ImageFields(g, r4);
    FileOptions(g, s7, r5);
    var r6 := FileFields(g, r5);
    TailOptions(g, h, r6);
  }

  function HeadFields(g: DownloadForm, r: Request): Request {
    r.(url := if g.url != "" then Some(g.url) else None,
       outputDir := if g.outputDir != "" then Some(g.outputDir) else None,
       format := Some(FormatCode(g.format)))
  }

  function DateFields(g: DownloadForm, r: Request): Request {
    r.(after := if g.datesEnabled && g.afterDate != "" then Some(g.afterDate) else None,
       before := if g.datesEnabled && g.beforeDate != "" then Some(g.beforeDate) else None)
  }

  function ImageFields(g: DownloadForm, r: Request): Request {
    r.(downloadImages := g.downloadImages,
       imageQuality := if g.downloadImages then Some(g.imageQuality) else None,
       imagesDir := if g.downloadImages && g.imagesDir != "" && g.imagesDir != "images" then Some(g.imagesDir) else None)
  }

  function FileFields(g: DownloadForm, r: Request): Request {
    r.(downloadFiles := g.downloadFiles,
       fileExtensions := if g.downloadFiles && g.fileExtensions != "" then Some(g.fileExtensions) else None,
       filesDir := if g.downloadFiles && g.filesDir != "" && g.filesDir != "files" then Some(g.filesDir) else None)
  }

  function TailFields(g: DownloadForm, h: Host, r: Request): Request {
    r.(addSourceUrl := g.addSourceUrl,
       createArchive := g.createArchive,
       rate := if g.rate != "" && g.rate != "1" && h.parseFloat(g.rate).Some?
               then Some(h.formatFloat(h.parseFloat(g.rate).value)) else None,
       verbose := g.verbose,
       dryRun := g.dryRun)
  }

  function CookieFields(g: DownloadForm, r: Request): Request {
    r.(cookieName := if g.cookieValue != "" then Some(g.cookieName) else None,
       cookieValue := if g.cookieValue != "" then Some(g.cookieValue) else None)
  }

  lemma RequestedBySections(g: DownloadForm, h: Host)
    ensures Requested(g, h)
         == CookieFields(g, TailFields(g, h, FileFields(g, ImageFields(g, DateFields(g, HeadFields(g, NoOptions(Executable(g))))))))
  {
  }

  lemma HeadOptions(g: DownloadForm, rest: seq<string>, r: Request)
    requires r.url.None? && r.outputDir.None? && r.format.None?
    ensures ParseOptions(Optional(g.url != "", "--url", g.url) + (Optional(g.outputDir != "", "-o", g.outputDir)
              + (["-f", FormatCode(g.format)] + rest)), r)
         == ParseOptions(rest, HeadFields(g, r))
  {
    var s3 := ["-f", FormatCode(g.format)] + rest;
    ParseOptionalValue(g.url != "", "--url", g.url, Optional(g.outputDir != "", "-o", g.outputDir) + s3, r);
    var r1 := if g.url != "" then WithValue(r, "--url", g.url) else r;
    ParseOptionalValue(g.outputDir != "", "-o", g.outputDir, s3, r1);
    var r2 := if g.outputDir != "" then WithValue(r1, "-o", g.outputDir) else r1;
    ParseValueOption("-f", FormatCode(g.format), rest, r2);
  }

  lemma TailOptions(g: DownloadForm, h: Host, r: Request)
    requires !r.addSourceUrl && !r.createArchive && r.rate.None? && !r.verbose && !r.dryRun
    ensures ParseOptions(Switch(g.addSourceUrl, "--add-source-url") + (Switch(g.createArchive, "--create-archive")
              + (RateFlags(g, h) + (Switch(g.verbose, "-v") + Switch(g.dryRun, "-d")))), r)
         == Some(TailFields(g, h, r))
  {
    var s10 := Switch(g.verbose, "-v") + Switch(g.dryRun, "-d");
    var s9 := RateFlags(g, h) + s10;
    var s8 := Switch(g.createArchive, "--create-archive") + s9;
    ParseOptionalSwitch(g.addSourceUrl, "--add-source-url", s8, r);
    var r7 := r.(addSourceUrl := g.addSourceUrl);
    ParseOptionalSwitch(g.createArchive, "--create-archive", s9, r7);
    var r8 := r7.(createArchive := g.createArchive);
    RateOptions(g, h, s10, r8);
    var r9 := r8.(rate := TailFields(g, h, r).rate);
    LastOptions(g, r9);
  }

  lemma LastOptions(g: DownloadForm, r: Request)
    requires !r.verbose && !r.dryRun
    ensures ParseOptions(Switch(g.verbose, "-v") + Switch(g.dryRun, "-d"), r)
         == Some(r.(verbose := g.verbose, dryRun := g.dryRun))
  {
    var none: seq<string> := [];
    ParseOptionalSwitch(g.verbose, "-v", Switch(g.dryRun, "-d"), r);
    assert Switch(g.dryRun, "-d") == Switch(g.dryRun, "-d") + none;
    ParseOptionalSwitch(g.dryRun, "-d", none, r.(verbose := g.verbose));
  }

  lemma DateOptions(g: DownloadForm, rest: seq<string>, r: Request)
    requires r.after.None? && r.before.None?
    ensures ParseOptions(DateFlags(g) + rest, r) == ParseOptions(rest, DateFields(g, r))
  {
    if g.datesEnabled {
      var a, b := g.afterDate, g.beforeDate;
      assert DateFlags(g) + rest == Optional(a != "", "--after", a) + (Optional(b != "", "--before", b) + rest);
      DatePair(a, b, rest, r);
    } else {
      assert DateFlags(g) + rest == rest;
      assert r.(after := None, before := None) == r;
    }
  }

  lemma DatePair(a: string, b: string, rest: seq<string>, r: Request)
    requires r.after.None? && r.before.None?
    ensures ParseOptions(Optional(a != "", "--after", a) + (Optional(b != "", "--before", b) + rest), r)
         == ParseOptions(rest, r.(after := if a != "" then Some(a) else None, before := if b != "" then Some(b) else None))
  {
    ParseOptionalValue(a != "", "--after", a, Optional(b != "", "--before", b) + rest, r);
    ParseOptionalValue(b != "", "--before", b, rest, if a != "" then WithValue(r, "--after", a) else r);
  }

  lemma ImageOptions(g: DownloadForm, rest: seq<string>, r: Request)
    requires !r.downloadImages && r.imageQuality.None? && r.imagesDir.None?
    ensures ParseOptions(ImageFlags(g) + rest, r) == ParseOptions(rest, ImageFields(g, r))
  {
    if g.downloadImages {
      var q, d := g.imageQuality, g.imagesDir;
      var wanted := d != "" && d != "images";
      assert ImageFlags(g) + rest == ["--download-images"] + (["--image-quality", q] + (Optional(wanted, "--images-dir", d) + rest));
      ImageTriple(q, wanted, d, rest, r);
    } else {
      assert ImageFlags(g) + rest == rest;
      assert r.(downloadImages := false, imageQuality := None, imagesDir := None) == r;
    }
  }

  lemma ImageTriple(q: string, wanted: bool, d: string, rest: seq<string>, r: Request)
    requires !r.downloadImages && r.imageQuality.None? && r.imagesDir.None?
    ensures ParseOptions(["--download-images"] + (["--image-quality", q] + (Optional(wanted, "--images-dir", d) + rest)), r)
         == ParseOptions(rest, r.(downloadImages := true, imageQuality := Some(q), imagesDir := if wanted then Some(d) else None))
  {
    var tail := Optional(wanted, "--images-dir", d) + rest;
    ParseSwitchOption("--download-images", ["--image-quality", q] + tail, r);
    var r1 := WithSwitch(r, "--download-images");
    ParseValueOption("--image-quality", q, tail, r1);
    ParseOptionalValue(wanted, "--images-dir", d, rest, WithValue(r1, "--image-quality", q));
  }

  lemma FileOptions(g: DownloadForm, rest: seq<string>, r: Request)
    requires !r.downloadFiles && r.fileExtensions.None? && r.filesDir.None?
    ensures ParseOptions(FileFlags(g) + rest, r) == ParseOptions(rest, FileFields(g, r))
  {
    if g.downloadFiles {
      var e, d := g.fileExtensions, g.filesDir;
      var wanted := d != "" && d != "files";
      assert FileFlags(g) + rest == ["--download-files"] + (Optional(e != "", "--file-extensions", e) + (Optional(wanted, "--files-dir", d) + rest));
      FileTriple(e, wanted, d, rest, r);
    } else {
      assert FileFlags(g) + rest == rest;
      assert r.(downloadFiles := false, fileExtensions := None, filesDir := None) == r;
    }
  }

  lemma FileTriple(e: string, wanted: bool, d: string, rest: seq<string>, r: Request)
    requires !r.downloadFiles && r.fileExtensions.None? && r.filesDir.None?
    ensures ParseOptions(["--download-files"] + (Optional(e != "", "--file-extensions", e) + (Optional(wanted, "--files-dir", d) + rest)), r)
         == ParseOptions(rest, r.(downloadFiles := true, fileExtensions := if e != "" then Some(e) else None,
                                  filesDir := if wanted then Some(d) else None))
  {
    var tail := Optional(wanted, "--files-dir", d) + rest;
    ParseSwitchOption("--download-files", Optional(e != "", "--file-extensions", e) + tail, r);
    var r1 := WithSwitch(r, "--download-files");
    ParseOptionalValue(e != "", "--file-extensions", e, tail, r1);
    ParseOptionalValue(wanted, "--files-dir", d, rest, if e != "" then WithValue(r1, "--file-extensions", e) else r1);
  }

  lemma RateOptions(g: DownloadForm, h: Host, rest: seq<string>, r: Request)
    requires r.rate.None?
    ensures ParseOptions(RateFlags(g, h) + rest, r) == ParseOptions(rest, r.(
      rate := if g.rate != "" && g.rate != "1" && h.parseFloat(g.rate).Some?
              then Some(h.formatFloat(h.parseFloat(g.rate).value)) else None))
  {
    if g.rate != "" && g.rate != "1" && h.parseFloat(g.rate).Some? {
      ParseValueOption("-r", h.formatFloat(h.parseFloat(g.rate).value), rest, r);
    } else {
      assert RateFlags(g, h) + rest == rest;
      assert r.(rate := None) == r;
    }
  }

  lemma CookieOptions(g: DownloadForm, r: Request)
    requires r.cookieName.None? && r.cookieValue.None?
    ensures ParseOptions(CookieFlags(g), r) == Some(CookieFields(g, r))
  {
    if g.cookieValue != "" {
      ParseValueOption("--cookie_name", g.cookieName, ["--cookie_val", g.cookieValue], r);
      ParseValueOption("--cookie_val", g.cookieValue, [], WithValue(r, "--cookie_name", g.cookieName));
      assert ["--cookie_name", g.cookieName] + ["--cookie_val", g.cookieValue] == CookieFlags(g);
      assert ["--cookie_val", g.cookieValue] + [] == ["--cookie_val", g.cookieValue];
    }
  }

  // ---------------------------------------------------------------------
  // Where things sit in the vector, and what a fresh form builds.
  // ---------------------------------------------------------------------

  /** The executable and subcommand lead, then the URL and output pairs, then the format pair. */
  lemma FormatPosition(f: DownloadForm, h: Host)
    ensures var g := Stripped(f);
            var k := 2 + (if g.url != "" then 2 else 0) + (if g.outputDir != "" then 2 else 0);
            var cmd := Command(f, h);
            k + 1 < |cmd| && cmd[k] == "-f" && cmd[k + 1] == FormatCode(f.format)
            && (g.url != "" ==> cmd[2] == "--url" && cmd[3] == g.url)
  {
    var g := Stripped(f);
    FormatAt([Executable(g), "download"], g.url != "", g.url, g.outputDir != "", g.outputDir, FormatCode(g.format),
             DateFlags(g) + AfterDates(g, h), CookieFlags(g));
  }

  /** The options that follow the date bounds. */
  function AfterDates(g: DownloadForm, h: Host): seq<string> {
    ImageFlags(g) + (FileFlags(g) + (Switch(g.addSourceUrl, "--add-source-url")
      + (Switch(g.createArchive, "--create-archive") + (RateFlags(g, h) + (Switch(g.verbose, "-v")
      + Switch(g.dryRun, "-d"))))))
  }

  lemma FormatAt(lead: seq<string>, pu: bool, url: string, po: bool, out: string, code: string,
                 tail: seq<string>, c: seq<string>)
    requires |lead| == 2
    ensures var s := lead + ((Optional(pu, "--url", url) + (Optional(po, "-o", out) + (["-f", code] + tail))) + c);
            var k := 2 + (if pu then 2 else 0) + (if po then 2 else 0);
            k + 1 < |s| && s[k] == "-f" && s[k + 1] == code
            && (pu ==> s[2] == "--url" && s[3] == url)
  {
    var u, o := Optional(pu, "--url", url), Optional(po, "-o", out);
    var s := lead + ((u + (o + (["-f", code] + tail))) + c);
    assert s == lead + u + o + ["-f", code] + tail + c;
  }

  /**
   * The date bounds that are sent come right after the format pair, the
   * lower bound first.
   */
  lemma DatePosition(f: DownloadForm, h: Host)
    ensures var g := Stripped(f);
            var k := 4 + (if g.url != "" then 2 else 0) + (if g.outputDir != "" then 2 else 0);
            var cmd := Command(f, h);
            && (g.datesEnabled && g.afterDate != "" && g.beforeDate != "" ==>
                  k + 4 <= |cmd| && cmd[k..k + 4] == ["--after", g.afterDate, "--before", g.beforeDate])
            && (g.datesEnabled && g.afterDate != "" && g.beforeDate == "" ==>
                  k + 2 <= |cmd| && cmd[k..k + 2] == ["--after", g.afterDate])
            && (g.datesEnabled && g.afterDate == "" && g.beforeDate != "" ==>
                  k + 2 <= |cmd| && cmd[k..k + 2] == ["--before", g.beforeDate])
  {
    var g := Stripped(f);
    CommandShape(f, h);
    DatesFollowFormat(Command(f, h), g, h);
  }

  /** In any vector laid out section by section, the date flags follow the format pair. */
  lemma DatesFollowFormat(cmd: seq<string>, g: DownloadForm, h: Host)
    requires cmd == [Executable(g), "download"]
              + ((Optional(g.url != "", "--url", g.url) + (Optional(g.outputDir != "", "-o", g.outputDir)
              + (["-f", FormatCode(g.format)] + (DateFlags(g) + AfterDates(g, h))))) + CookieFlags(g))
    ensures var k := 4 + (if g.url != "" then 2 else 0) + (if g.outputDir != "" then 2 else 0);
            && (g.datesEnabled && g.afterDate != "" && g.beforeDate != "" ==>
                  k + 4 <= |cmd| && cmd[k..k + 4] == ["--after", g.afterDate, "--before", g.beforeDate])
            && (g.datesEnabled && g.afterDate != "" && g.beforeDate == "" ==>
                  k + 2 <= |cmd| && cmd[k..k + 2] == ["--after", g.afterDate])
            && (g.datesEnabled && g.afterDate == "" && g.beforeDate != "" ==>
                  k + 2 <= |cmd| && cmd[k..k + 2] == ["--before", g.beforeDate])
  {
    var k := 4 + (if g.url != "" then 2 else 0) + (if g.outputDir != "" then 2 else 0);
    DatesAt([Executable(g), "download"], g.url != "", g.url, g.outputDir != "", g.outputDir, FormatCode(g.format),
            DateFlags(g), AfterDates(g, h), CookieFlags(g));
    DatesIn(cmd, k, g);
  }

  /** The vector section by section: lead, URL pair, output pair, format pair, dates, the rest, cookie. */
  lemma CommandShape(f: DownloadForm, h: Host)
    ensures var g := Stripped(f);
            Command(f, h) == [Executable(g), "download"]
              + ((Optional(g.url != "", "--url", g.url) + (Optional(g.outputDir != "", "-o", g.outputDir)
              + (["-f", FormatCode(g.format)] + (DateFlags(g) + AfterDates(g, h))))) + CookieFlags(g))
  {
  }

  /** Where the date flags sit in a vector, read case by case. */
  lemma DatesIn(cmd: seq<string>, k: nat, g: DownloadForm)
    requires k + |DateFlags(g)| <= |cmd| && cmd[k..k + |DateFlags(g)|] == DateFlags(g)
    ensures g.datesEnabled && g.afterDate != "" && g.beforeDate != "" ==>
              k + 4 <= |cmd| && cmd[k..k + 4] == ["--after", g.afterDate, "--before", g.beforeDate]
    ensures g.datesEnabled && g.afterDate != "" && g.beforeDate == "" ==>
              k + 2 <= |cmd| && cmd[k..k + 2] == ["--after", g.afterDate]
    ensures g.datesEnabled && g.afterDate == "" && g.beforeDate != "" ==>
              k + 2 <= |cmd| && cmd[k..k + 2] == ["--before", g.beforeDate]
  {
    DateFlagsCases(g);
  }

  lemma DateFlagsCases(g: DownloadForm)
    ensures g.datesEnabled && g.afterDate != "" && g.beforeDate != "" ==>
              DateFlags(g) == ["--after", g.afterDate, "--before", g.beforeDate]
    ensures g.datesEnabled && g.afterDate != "" && g.beforeDate == "" ==> DateFlags(g) == ["--after", g.afterDate]
    ensures g.datesEnabled && g.afterDate == "" && g.beforeDate != "" ==> DateFlags(g) == ["--before", g.beforeDate]
  {
    var none: seq<string> := [];
    assert ["--after", g.afterDate] + none == ["--after", g.afterDate];
    assert none + ["--before", g.beforeDate] == ["--before", g.beforeDate];
  }

  lemma DatesAt(lead: seq<string>, pu: bool, url: string, po: bool, out: string, code: string,
                d: seq<string>, rest: seq<string>, c: seq<string>)
    requires |lead| == 2
    ensures var s := lead + ((Optional(pu, "--url", url) + (Optional(po, "-o", out) + (["-f", code] + (d + rest)))) + c);
            var k := 4 + (if pu then 2 else 0) + (if po then 2 else 0);
            k + |d| <= |s| && s[k..k + |d|] == d
  {
    var u, o := Optional(pu, "--url", url), Optional(po, "-o", out);
    var s := lead + ((u + (o + (["-f", code] + (d + rest)))) + c);
    assert s == lead + u + o + ["-f", code] + d + rest + c;
  }

  /** With a cookie value the vector ends in the cookie pair. */
  lemma CookieLast(f: DownloadForm, h: Host)
    ensures var cmd := Command(f, h);
            Trim(f.cookieValue) != "" ==>
              |cmd| >= 8 && cmd[|cmd| - 4..] == ["--cookie_name", f.cookieName, "--cookie_val", Trim(f.cookieValue)]
  {
    var g := Stripped(f);
    if g.cookieValue != "" {
      var lead, opts, c := [Executable(g), "download"], Options(g, h), CookieFlags(g);
      assert Command(f, h) == lead + (opts + c);
      assert c == ["--cookie_name", f.cookieName, "--cookie_val", Trim(f.cookieValue)];
      OptionsHoldFormat(g, h);
      EndsWithPair(lead, opts, c);
    }
  }

  /** The options always hold the format pair. */
  lemma OptionsHoldFormat(g: DownloadForm, h: Host)
    ensures |Options(g, h)| >= 2
  {
    var u, o := Optional(g.url != "", "--url", g.url), Optional(g.outputDir != "", "-o", g.outputDir);
    var tail := DateFlags(g) + AfterDates(g, h);
    assert Options(g, h) == u + (o + (["-f", FormatCode(g.format)] + tail));
  }

  lemma EndsWithPair(lead: seq<string>, opts: seq<string>, c: seq<string>)
    requires |c| == 4
    ensures var s := lead + (opts + c);
            |s| == |lead| + |opts| + 4 && s[|s| - 4..] == c
  {
    var s := lead + (opts + c);
    assert s == (lead + opts) + c;
  }

  /**
   * Rules read off the vector through the reader: the
   * executable, the format code from the table, a rate only when it is set,
   * not exactly "1" and a float, and a cookie only when a value is given.
   */
  lemma ParsedRules(f: DownloadForm, h: Host)
    ensures Parse(Command(f, h)).Some?
    ensures var q := Parse(Command(f, h)).value;
            && q.executable == (if Trim(f.exePath) != "" then Trim(f.exePath) else "sbstck-dl")
            && q.format.Some? && q.format.value in FormatCodes.Values
            && (q.rate.Some? <==> Trim(f.rate) != "" && Trim(f.rate) != "1" && h.parseFloat(Trim(f.rate)).Some?)
            && (q.cookieValue.Some? <==> Trim(f.cookieValue) != "")
            && ((q.after.Some? || q.before.Some?) ==> f.datesEnabled)
            && (q.imagesDir.Some? ==> q.downloadImages && q.imagesDir.value != "images")
  {
    RoundTrip(f, h);
  }

  /**
   * A form with only the URL and output folder filled in, the source-URL
   * switch on and every other option at its default, builds the shortest
   * vector: the two pairs, the format and the source-URL switch.
   */
  lemma MinimalCommand(f: DownloadForm, h: Host)
    requires Trim(f.url) != "" && Trim(f.outputDir) != "" && f.addSourceUrl
    requires Trim(f.rate) == "1" && Trim(f.cookieValue) == ""
    requires !f.datesEnabled && !f.downloadImages && !f.downloadFiles && !f.createArchive && !f.verbose && !f.dryRun
    ensures Command(f, h) == [Executable(Stripped(f)), "download", "--url", Trim(f.url), "-o", Trim(f.outputDir),
                              "-f", FormatCode(f.format), "--add-source-url"]
  {
    var g := Stripped(f);
    MinimalOptions(g, h);
  }

  /** Only the URL, the folder, the format and the source-URL switch: nothing else is emitted. */
  lemma MinimalOptions(g: DownloadForm, h: Host)
    requires g.url != "" && g.outputDir != "" && g.addSourceUrl && g.rate == "1" && g.cookieValue == ""
    requires !g.datesEnabled && !g.downloadImages && !g.downloadFiles && !g.createArchive && !g.verbose && !g.dryRun
    ensures Arguments(g, h) == ["--url", g.url, "-o", g.outputDir, "-f", FormatCode(g.format), "--add-source-url"]
  {
    var none: seq<string> := [];
    assert DateFlags(g) == none && CookieFlags(g) == none;
    assert AfterDates(g, h) == ["--add-source-url"] by {
      assert ImageFlags(g) == none && FileFlags(g) == none && RateFlags(g, h) == none;
    }
  }

  /**
   * The downloader path saved by `_save_settings` is already stripped, and
   * the form built from the saved settings runs the same executable.
   */
  lemma SavedPathSameExecutable(f: DownloadForm)
    ensures Executable(Stripped(f.(exePath := Trim(f.exePath)))) == Executable(Stripped(f))
  {
    TrimIdempotent(f.exePath);
  }

  /** A fresh form meets those conditions once a URL and a folder are entered. */
  lemma FreshFormIsMinimal(url: string, out: string, choice: string)
    requires Trim(url) != "" && Trim(out) != ""
    ensures var f := FreshDownloadForm("", url, out, choice);
            && Trim(f.url) != "" && Trim(f.outputDir) != "" && f.addSourceUrl
            && Trim(f.rate) == "1" && Trim(f.cookieValue) == "" && Executable(Stripped(f)) == "sbstck-dl"
            && !f.datesEnabled && !f.downloadImages && !f.downloadFiles && !f.createArchive && !f.verbose && !f.dryRun
  {
    DefaultsTrimmed();
  }

  lemma DefaultsTrimmed()
    ensures Trim("") == "" && Trim("images") == "images" && Trim("files") == "files" && Trim("1") == "1"
  {
    TrimNoop("images");
    TrimNoop("files");
    TrimNoop("1");
  }
}
