/**
 * The form state the two command builders read, and the host services
 * (float parsing and printing, path joining, directory queries) they call.
 * Each Tk variable `x_var.get()` is a plain field here.
 */
module Forms {
  import opened Wrappers

  /** A Python float: a real number, an infinity, or NaN. */
  datatype Float = Finite(value: real) | PosInf | NegInf | NaN {

    /** Python's `x <= 0` (false for NaN, as every comparison with NaN is). */
    predicate AtMostZero() {
      match this
      case Finite(v) => v <= 0.0
      case NegInf => true
      case PosInf => false
      case NaN => false
    }
  }

  /**
   * Services of the Python runtime and the file system that the model does
   * not interpret. `parseFloat(s)` is `float(s)`, None where that raises
   * ValueError; `formatFloat(x)` is `str(x)`; `join` is `os.path.join`;
   * `isDir` is `os.path.isdir`; `listDir(p)` is `os.listdir(p)`, None where
   * that raises OSError.
   */
  datatype Host = Host(
    parseFloat: string -> Option<Float>,
    formatFloat: Float -> string,
    join: (string, string) -> string,
    isDir: string -> bool,
    listDir: string -> Option<seq<string>>)

  /** The Download tab plus the downloader path from the Settings tab. */
  datatype DownloadForm = DownloadForm(
    exePath: string,
    url: string,
    outputDir: string,
    format: string,
    datesEnabled: bool,
    afterDate: string,
    beforeDate: string,
    downloadImages: bool,
    imageQuality: string,
    imagesDir: string,
    downloadFiles: bool,
    fileExtensions: string,
    filesDir: string,
    addSourceUrl: bool,
    createArchive: bool,
    rate: string,
    verbose: bool,
    dryRun: bool,
    cookieName: string,
    cookieValue: string)

  /** The ePub Conversion tab plus the pandoc path from the Settings tab. */
  datatype EpubForm = EpubForm(
    pandocPath: string,
    source: string,
    output: string,
    title: string,
    author: string,
    toc: bool,
    splitLevel: string)

  /** Format choice label shown to the user, mapped to the downloader's `-f` code. */
  const FormatCodes: map<string, string> :=
    map["Markdown (.md)" := "md", "HTML (.html)" := "html", "Plain Text (.txt)" := "txt"]

  /** The `-f` code for a format choice; an unknown choice falls back to Markdown. */
  function FormatCode(choice: string): (code: string)
    ensures code in FormatCodes.Values
    ensures choice in FormatCodes ==> code == FormatCodes[choice]
    ensures choice !in FormatCodes ==> code == "md"
  {
    if choice in FormatCodes then FormatCodes[choice]
    else assert FormatCodes["Markdown (.md)"] == "md"; "md"
  }

  /**
   * The Download tab as the application first shows it: the widget
   * defaults, with the downloader path, URL, output folder and format label
   * taken from the settings.
   */
  function FreshDownloadForm(exePath: string, url: string, outputDir: string, format: string): DownloadForm {
    DownloadForm(
      exePath := exePath, url := url, outputDir := outputDir, format := format,
      datesEnabled := false, afterDate := "", beforeDate := "",
      downloadImages := false, imageQuality := "low", imagesDir := "images",
      downloadFiles := false, fileExtensions := "", filesDir := "files",
      addSourceUrl := true, createArchive := false, rate := "1",
      verbose := false, dryRun := false,
      cookieName := "substack.sid", cookieValue := "")
  }
}
