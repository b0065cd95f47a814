/**
 * The settings store: a JSON object on disk merged over fixed defaults when
 * the application starts.
 */
module Settings {

  /** A value `json.load` can produce. */
  datatype Json =
    | JNull
    | JBool(b: bool)
    | JNumber(n: real)
    | JString(s: string)
    | JArray(items: seq<Json>)
    | JObject(fields: map<string, Json>)

  /** What reading the settings file yields. */
  datatype ConfigFile =
    | Absent                  // the file does not exist
    | Unreadable              // opening or reading raised OSError
    | NotUtf8                 // the bytes are not UTF-8, so reading the text raised UnicodeDecodeError
    | Undecodable             // json.load raised JSONDecodeError
    | DecodeCrashed           // json.load raised another exception: RecursionError on deep nesting,
                              // ValueError on an integer literal beyond the digit limit
    | Decoded(document: Json) // json.load returned a value

  type Config = map<string, Json>

  const Defaults: Config := map[
    "sbstckdl_path" := JString(""),
    "pandoc_path" := JString("C:\\Program Files\\Pandoc\\pandoc.exe"),
    "last_url" := JString(""),
    "last_output_dir" := JString(""),
    "last_format" := JString("Markdown (.md)"),
    "last_epub_source_dir" := JString(""),
    "last_epub_output_file" := JString(""),
    "last_author" := JString(""),
    "window_geometry" := JString("1050x800")]

  /** Python's `{**base, **loaded}`: every key of either, the loaded value winning. */
  function Merge(base: Config, loaded: Config): (r: Config)
    ensures r.Keys == base.Keys + loaded.Keys
    ensures forall k :: k in loaded ==> r[k] == loaded[k]
    ensures forall k :: k in base && k !in loaded ==> r[k] == base[k]
  {
    base + loaded
  }

  /** How `load_config` ends: with a configuration, or with an exception escaping to its caller. */
  datatype LoadOutcome = Loaded(config: Config) | Raised(exception: string)

  /**
   * `load_config` as written: only JSONDecodeError and OSError are caught, so
   * a file that is not UTF-8 text raises UnicodeDecodeError, any other
   * failure inside `json.load` escapes as it is, and a document that decodes
   * to something other than an object makes the `**data` unpacking raise
   * TypeError, all out of the function.
   */
  function LoadConfigAsWritten(file: ConfigFile): LoadOutcome {
    match file
    case Absent => Loaded(Defaults)
    case Unreadable => Loaded(Defaults)
    case NotUtf8 => Raised("UnicodeDecodeError")
    case DecodeCrashed => Raised("RecursionError or ValueError")
    case Undecodable => Loaded(Defaults)
    case Decoded(JObject(fields)) => Loaded(Merge(Defaults, fields))
    case Decoded(_) => Raised("TypeError")
  }

  /** A settings file `[]` stops the application at start-up. */
  lemma NonObjectDocumentRaises()
    ensures LoadConfigAsWritten(Decoded(JArray([]))).Raised?
  {
  }

  /** A settings file saved as UTF-16 stops the application at start-up. */
  lemma NotUtf8Raises()
    ensures LoadConfigAsWritten(NotUtf8) == Raised("UnicodeDecodeError")
    ensures LoadConfig(NotUtf8) == Defaults
  {
  }

  /** A document nested too deeply for the decoder stops the application at start-up. */
  lemma DecodeCrashRaises()
    ensures LoadConfigAsWritten(DecodeCrashed).Raised?
    ensures LoadConfig(DecodeCrashed) == Defaults
  {
  }

  /**
   * `load_config` as intended: any file that does not hold a JSON object
   * falls back to the defaults, like an unreadable or undecodable one.
   */
  function LoadConfig(file: ConfigFile): (r: Config)
    ensures Defaults.Keys <= r.Keys
    ensures file.Decoded? && file.document.JObject? ==>
      r.Keys == Defaults.Keys + file.document.fields.Keys &&
      forall k :: k in file.document.fields ==> r[k] == file.document.fields[k]
    ensures !(file.Decoded? && file.document.JObject?) ==> r == Defaults
  {
    match file
    case Decoded(JObject(fields)) => Merge(Defaults, fields)
    case _ => Defaults
  }

  /** Where the code as written returns at all, it returns what the intended one does. */
  lemma LoadConfigAgrees(file: ConfigFile)
    ensures LoadConfigAsWritten(file).Loaded?
        <==> !file.NotUtf8? && !file.DecodeCrashed? && !(file.Decoded? && !file.document.JObject?)
    ensures LoadConfigAsWritten(file).Loaded? ==> LoadConfigAsWritten(file).config == LoadConfig(file)
  {
  }

  /** A key missing from the file takes its default; a key present in the file keeps the file's value. */
  lemma LoadKeepsFileValues(fields: Config, k: string)
    requires k in Defaults
    ensures k in fields ==> LoadConfig(Decoded(JObject(fields)))[k] == fields[k]
    ensures k !in fields ==> LoadConfig(Decoded(JObject(fields)))[k] == Defaults[k]
  {
  }

  /** Saving what was loaded and loading it again gives the same settings. */
  lemma SaveLoadIdempotent(file: ConfigFile)
    ensures LoadConfig(Decoded(JObject(LoadConfig(file)))) == LoadConfig(file)
  {
    var c := LoadConfig(file);
    assert Merge(Defaults, c) == c;
  }
}
