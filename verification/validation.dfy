/**
 * `_validate_download` and `_validate_epub`: the checks run before a
 * command is built, each returning the first problem found as the message
 * shown to the user.
 */
module Validation {
  import opened Wrappers
  import opened Text
  import opened Forms
  import Download
  import Epub

  /** A reason `_validate_download` refuses to start a download. */
  datatype DownloadProblem =
    | NoUrl
    | BadScheme
    | NoOutputFolder
    | RateNotNumber
    | RateNotPositive
    | BadAfterDate
    | BadBeforeDate
  {
    /** The text shown in the "Validation Error" dialog. */
    function Message(): string {
      match this
      case NoUrl => "Substack URL is required."
      case BadScheme => "URL must start with http:// or https://"
      case NoOutputFolder => "Please select an output folder."
      case RateNotNumber => "Rate must be a number (e.g. 1 or 0.5)."
      case RateNotPositive => "Rate must be a positive number."
      case BadAfterDate => "After date must be in YYYY-MM-DD format."
      case BadBeforeDate => "Before date must be in YYYY-MM-DD format."
    }
  }

  /** A reason `_validate_epub` refuses to start a conversion. */
  datatype EpubProblem =
    | NoSource
    | SourceMissing(path: string)
    | NoMarkdownFiles
    | NoOutputFile
    | NotEpub
  {
    /** The text shown in the "Validation Error" dialog. */
    function Message(): string {
      match this
      case NoSource => "Please select a source folder containing .md files."
      case SourceMissing(path) => "Source folder does not exist:\n" + path
      case NoMarkdownFiles =>
        "No .md files found in the source folder (excluding index.md).\nMake sure you downloaded in Markdown format first."
      case NoOutputFile => "Please choose an output .epub file path."
      case NotEpub => "Output file must have a .epub extension."
    }
  }

  // ---------------------------------------------------------------------
  // Dates
  // ---------------------------------------------------------------------

  /** Exactly `dddd-dd-dd` with ASCII digits. */
  predicate DateShape(s: string) {
    && |s| == 10
    && IsAsciiDigit(s[0]) && IsAsciiDigit(s[1]) && IsAsciiDigit(s[2]) && IsAsciiDigit(s[3])
    && s[4] == '-' && IsAsciiDigit(s[5]) && IsAsciiDigit(s[6])
    && s[7] == '-' && IsAsciiDigit(s[8]) && IsAsciiDigit(s[9])
  }

  /**
   * `re.match(r"^\d{4}-\d{2}-\d{2}$", s)`: the shape, where `$` also
   * matches just before a final newline.
   */
  predicate DateMatches(s: string) {
    DateShape(s) || (|s| == 11 && DateShape(s[..10]) && s[10] == '\n')
  }

  /** On a stripped string the newline allowance never applies: the pattern is the shape. */
  lemma StrippedDateMatches(s: string)
    ensures DateMatches(Trim(s)) <==> DateShape(Trim(s))
  {
    TrimSpec(s);
  }

  /** The as-written pattern accepts a bound with one trailing newline. */
  lemma TrailingNewlineMatches()
    ensures DateMatches("2024-01-31\n") && !DateShape("2024-01-31\n")
  {
    assert "2024-01-31\n"[..10] == "2024-01-31";
  }

  // ---------------------------------------------------------------------
  // URL scheme
  // ---------------------------------------------------------------------

  /** The scheme check: the URL begins with the four letters "http". */
  predicate HttpPrefix(url: string) {
    StartsWith(url, "http")
  }

  /** The rule the refusal message states: the URL begins with "http://" or "https://". */
  predicate StatedScheme(url: string) {
    StartsWith(url, "http://") || StartsWith(url, "https://")
  }

  /** The check is looser than its message: a URL the message rules out passes it. */
  lemma LooserThanMessage()
    ensures HttpPrefix("httpx://a") && !StatedScheme("httpx://a")
    ensures HttpPrefix("http") && !StatedScheme("http")
  {
    assert "httpx://a"[..4] == "http";
    assert "httpx://a"[..7] != "http://" by { assert "httpx://a"[4] != "http://"[4]; }
    assert "httpx://a"[..8] != "https://" by { assert "httpx://a"[4] != "https://"[4]; }
  }

  /** Every URL of the stated form passes the check. */
  lemma StatedSchemePasses(url: string)
    ensures StatedScheme(url) ==> HttpPrefix(url)
  {
    if StartsWith(url, "http://") {
      assert url[..4] == url[..7][..4];
    } else if StartsWith(url, "https://") {
      assert url[..4] == url[..8][..4];
    }
  }

  // ---------------------------------------------------------------------
  // Download tab
  // ---------------------------------------------------------------------

  /** The rate rule: an empty rate, or one that parses as a float above zero. */
  predicate RatePasses(f: DownloadForm, h: Host) {
    Trim(f.rate) != "" ==> h.parseFloat(Trim(f.rate)).Some? && !h.parseFloat(Trim(f.rate)).value.AtMostZero()
  }

  /** What the form must satisfy for a download to start, rule by rule. */
  ghost predicate DownloadValid(f: DownloadForm, h: Host) {
    var url, out, rate := Trim(f.url), Trim(f.outputDir), Trim(f.rate);
    && url != "" && HttpPrefix(url)
    && out != ""
    && RatePasses(f, h)
    && (f.datesEnabled && Trim(f.afterDate) != "" ==> DateShape(Trim(f.afterDate)))
    && (f.datesEnabled && Trim(f.beforeDate) != "" ==> DateShape(Trim(f.beforeDate)))
  }

  /**
   * `_validate_download`: no problem exactly when every rule holds;
   * otherwise the first rule that fails, in the order URL, scheme, output
   * folder, rate, lower date bound, upper date bound.
   */
  function ValidateDownload(f: DownloadForm, h: Host): (err: Option<DownloadProblem>)
    ensures err.None? <==> DownloadValid(f, h)
    ensures err == Some(NoUrl) <==> Trim(f.url) == ""
    ensures err == Some(BadScheme) <==> Trim(f.url) != "" && !HttpPrefix(Trim(f.url))
    ensures err == Some(NoOutputFolder) <==> Trim(f.url) != "" && HttpPrefix(Trim(f.url)) && Trim(f.outputDir) == ""
    ensures err == Some(RateNotNumber) ==> Trim(f.rate) != "" && h.parseFloat(Trim(f.rate)).None?
    ensures err == Some(RateNotPositive) ==> Trim(f.rate) != "" && h.parseFloat(Trim(f.rate)).Some? && h.parseFloat(Trim(f.rate)).value.AtMostZero()
    ensures err == Some(BadAfterDate) ==> f.datesEnabled && Trim(f.afterDate) != "" && !DateShape(Trim(f.afterDate))
                                          && RatePasses(f, h)
    ensures err == Some(BadBeforeDate) ==> f.datesEnabled && Trim(f.beforeDate) != "" && !DateShape(Trim(f.beforeDate))
                                           && (Trim(f.afterDate) != "" ==> DateShape(Trim(f.afterDate)))
                                           && RatePasses(f, h)
  {
    var g := Download.Stripped(f);
    StrippedDateMatches(f.afterDate);
    StrippedDateMatches(f.beforeDate);
    if g.url == "" then Some(NoUrl)
    else if !HttpPrefix(g.url) then Some(BadScheme)
    else if g.outputDir == "" then Some(NoOutputFolder)
    else if g.rate != "" && h.parseFloat(g.rate).None? then Some(RateNotNumber)
    else if g.rate != "" && h.parseFloat(g.rate).value.AtMostZero() then Some(RateNotPositive)
    else if g.datesEnabled && g.afterDate != "" && !DateMatches(g.afterDate) then Some(BadAfterDate)
    else if g.datesEnabled && g.beforeDate != "" && !DateMatches(g.beforeDate) then Some(BadBeforeDate)
    else None
  }

  /** A URL such as "httpx://a" is accepted although the refusal message asks for http:// or https://. */
  lemma LooseSchemeAccepted(f: DownloadForm, h: Host)
    requires f.url == "httpx://a" && f.outputDir == "out" && f.rate == "" && !f.datesEnabled
    ensures ValidateDownload(f, h).None?
    ensures !StatedScheme(Trim(f.url))
  {
    TrimNoop("httpx://a");
    TrimNoop("out");
    LooserThanMessage();
  }

  /**
   * A form that passes validation never loses its rate: a rate other than
   * "1" reaches the downloader, and "1" is the form's own default.
   */
  lemma ValidatedRateKept(f: DownloadForm, h: Host)
    requires ValidateDownload(f, h).None?
    ensures Download.Parse(Download.Command(f, h)).Some?
    ensures var q := Download.Parse(Download.Command(f, h)).value;
            Trim(f.rate) != "" && Trim(f.rate) != "1" ==> q.rate.Some?
    ensures var q := Download.Parse(Download.Command(f, h)).value;
            q.url == Some(Trim(f.url)) && q.outputDir == Some(Trim(f.outputDir))
  {
    Download.ParsedRules(f, h);
    Download.RoundTrip(f, h);
  }

  /** A validated form sends only well-formed date bounds. */
  lemma ValidatedDates(f: DownloadForm, h: Host)
    requires ValidateDownload(f, h).None?
    ensures Download.Parse(Download.Command(f, h)).Some?
    ensures var q := Download.Parse(Download.Command(f, h)).value;
            && (q.after.Some? ==> DateShape(q.after.value))
            && (q.before.Some? ==> DateShape(q.before.value))
  {
    Download.RoundTrip(f, h);
  }

  // ---------------------------------------------------------------------
  // ePub tab
  // ---------------------------------------------------------------------

  /** The output path ends in ".epub", in any letter case. */
  predicate HasEpubExtension(out: string) {
    EndsWith(Lower(out), ".epub")
  }

  /**
   * `_validate_epub`: the source folder must be given, exist and hold a
   * Markdown file; the output path must be given and end in ".epub".
   */
  function ValidateEpub(f: EpubForm, h: Host): (err: Option<EpubProblem>)
    ensures var g := Epub.Stripped(f);
            err.None? <==> && g.source != "" && h.isDir(g.source) && Epub.SourceFiles(g, h) != []
                           && g.output != "" && HasEpubExtension(g.output)
    ensures var g := Epub.Stripped(f);
            && (err == Some(NoSource) <==> g.source == "")
            && (err.Some? && err.value.SourceMissing? <==> g.source != "" && !h.isDir(g.source))
            && (err.Some? && err.value.SourceMissing? ==> err.value.path == g.source)
            && (err == Some(NoMarkdownFiles) <==> g.source != "" && h.isDir(g.source) && Epub.SourceFiles(g, h) == [])
  {
    var g := Epub.Stripped(f);
    if g.source == "" then Some(NoSource)
    else if !h.isDir(g.source) then Some(SourceMissing(g.source))
    else if Epub.SourceFiles(g, h) == [] then Some(NoMarkdownFiles)
    else if g.output == "" then Some(NoOutputFile)
    else if !HasEpubExtension(g.output) then Some(NotEpub)
    else None
  }

  /**
   * When validation and the builder see the same folder state, a validated
   * ePub form builds a command, and the output pandoc is told to write ends
   * in ".epub".
   */
  lemma ValidatedEpubBuilds(f: EpubForm, h: Host)
    requires ValidateEpub(f, h).None?
    ensures Epub.Command(f, h).Some?
    ensures var out := Epub.Requested(Epub.Stripped(f)).output;
            out.Some? && HasEpubExtension(out.value)
  {
  }

  /**
   * On the same folder state, a form for which no command can be built fails
   * validation with one of the source problems.
   */
  lemma UnbuildableIsInvalid(f: EpubForm, h: Host)
    requires Epub.Command(f, h).None?
    ensures ValidateEpub(f, h).Some?
    ensures ValidateEpub(f, h).value.NoSource? || ValidateEpub(f, h).value.SourceMissing?
         || ValidateEpub(f, h).value.NoMarkdownFiles?
  {
  }
}
