# substack_to_epub_gui — a Dafny model of the command-building core

The application is a desktop front end for two command-line tools. One is the
Substack downloader `sbstck-dl`, which it drives from the Download tab. The
other is `pandoc`, which turns the downloaded Markdown files into an ePub from
the ePub Conversion tab. Almost all of `main.py` is widget code. Underneath it
is a small sequential core that this project models as pure functions over
immutable form records:

- **Settings** (`settings.dfy`): `load_config` merges the JSON settings file
  over fixed defaults.
- **Forms** (`forms.dfy`): the two tabs as records of the values their
  widgets hold, the format-label table, and the environment (`float()`,
  `str(float)`, `os.path.join`, `os.path.isdir`, `os.listdir`) as a `Host`
  record of uninterpreted functions.
- **Download** (`download.dfy`): `_build_download_cmd`, together with a
  reader for downloader vectors in which each option that takes a value takes
  the next element. The reader is the builder's partner: the round-trip lemma states every
  omission rule at once.
- **Discovery** (`discovery.dfy`) and **Ordering** (`ordering.dfy`):
  `_get_md_files` with Python's code-point order on strings, and an insertion
  sort proved sorted, a permutation and unique.
- **Epub** (`epub.dfy`): `_build_epub_cmd`, together with a reader for the
  options that follow the input files.
- **Display** (`display.dfy`): `_cmd_to_display_string`, together with a
  shell-like word splitter that reads the line back.
- **Validation** (`validation.dfy`): `_validate_download` and
  `_validate_epub` as first-failure rule chains, each returning a problem
  whose `Message()` is the dialog text.
- **Runner** (`runner.dfy`): the click handlers, `_start_command` and
  `_on_command_finished`, modelled as a state machine over the single-flight
  run flag.
- **Calendar** (`calendar.dfy`): the date picker's `_prev` and `_next` month
  stepping.
- **LogView** (`logview.dfy`): the trimming in `_append_to_log`.
- **Text** (`text.dfy`): `str.strip()` with Python's full whitespace set,
  ASCII `lower()`, prefix and suffix tests, and joining.
- **Wrappers** (`wrappers.dfy`): `Option`.

Two behaviours of the code worth noting:

- The log is meant to hold 2000 lines, but after a trim it keeps 2000 line
  breaks. The text widget's line count includes the line being written, so it
  reports 2001 lines.
- The URL check accepts anything that starts with the four letters "http".
  Its message asks for "http://" or "https://".

## Model

| member | source | states |
|---|---|---|
| Text.TrimSpec | main.py:700 | `strip()` leaves the middle of the string between two whitespace runs, with no whitespace at either end; the result is empty exactly when the string is all whitespace |
| Text.TrimIdempotent | main.py:1368 | stripping an already stripped value changes nothing |
| Download.SavedPathSameExecutable | main.py:1368 | the downloader path `_save_settings` stores is already stripped, and `_build_download_cmd` stripping it again runs the same executable as the form it was saved from |
| Ordering.Sort | main.py:794-797 | `sorted()` returns its input rearranged (same multiset) into ascending code-point order |
| Ordering.SortedUnique | main.py:794-797 | two sorted arrangements of the same multiset of names are equal, so the sorted file list does not depend on listing order |
| Forms.FormatCode | main.py:711 | a label in the table gives its own code ("Markdown (.md)" gives "md", "HTML (.html)" gives "html", "Plain Text (.txt)" gives "txt"), and a label missing from the table gives "md"; the code is always one of the table's codes |
| Settings.Merge | main.py:61 | `{**DEFAULTS, **data}` holds the keys of both; a key in the file keeps the file's value, and any other key keeps the default |
| Settings.LoadConfig | main.py:55-64 | a settings file holding a JSON object yields the defaults overlaid with that object; an absent, unreadable, non-UTF-8, undecodable or non-object file, or one on which the decoder fails in any other way, yields exactly the defaults |
| Settings.LoadConfigAgrees | main.py:55-64 | the code as written returns exactly when the file is UTF-8 text, `json.load` does not fail other than with `JSONDecodeError`, and the document is not a non-object, and then returns what `LoadConfig` returns |
| Settings.LoadKeepsFileValues | main.py:61 | a default key present in the file takes the file's value, and a default key absent from it takes the default |
| Settings.SaveLoadIdempotent | main.py:61-64 | writing the loaded settings back and loading them again gives the same settings |
| Settings.NonObjectDocumentRaises | main.py:57-63 | a settings file holding `[]` makes the code as written raise instead of returning |
| Settings.DecodeCrashRaises | main.py:59-63 | a document on which `json.load` raises something other than `JSONDecodeError` (`RecursionError` on deep nesting, `ValueError` on an over-long integer literal) makes the code as written raise, while the intended loader returns the defaults |
| Settings.NotUtf8Raises | main.py:58-63 | a settings file that is not UTF-8 text makes the code as written raise `UnicodeDecodeError`, while the intended loader returns the defaults |
| Download.Command | main.py:699-701 | every vector starts with the stripped executable override, or "sbstck-dl" when it is empty, then "download", and has at least four elements (where the format pair sits is stated by `Download.FormatPosition`) |
| Download.RoundTrip | main.py:699-762 | reading the vector back with the reader gives exactly the request the form asks for: each option is present under its own omission rule, with the value the builder sends: the stripped field, except that the image quality and the cookie name are sent unstripped and the rate is sent as `str(float(rate))` |
| Download.ParsedRules | main.py:700-762 | read back through the reader: the executable rule; a format code from the table; a rate exactly when the stripped rate is non-empty, not "1" and parses as a float; a cookie exactly when the stripped cookie value is non-empty; dates only when the filter is on; an images folder only when it is not "images" |
| Download.FormatPosition | main.py:703-712 | "-f" and the code come right after the lead and the URL and output pairs that are present; when a URL is given, "--url" and the URL come right after the lead |
| Download.DatePosition | main.py:714-720 | with the filter on, the bounds that are given follow the format pair directly: "--after" with its bound, then "--before" with its bound; a single bound sits right after the format pair |
| Download.CookieLast | main.py:757-762 | with a non-empty stripped cookie value, the last four elements are the cookie name pair and the cookie value pair |
| Download.MinimalCommand | main.py:699-762 | with only the URL and folder filled in, source URL on and everything else at its default, the vector is exactly the lead, the URL pair, the output pair, the format pair and "--add-source-url" |
| Download.FreshFormIsMinimal | main.py:144-163 | the Download tab's widget defaults (source URL on, rate "1", no cookie, every other switch off) meet those conditions once a URL and a folder are entered, and the executable falls back to "sbstck-dl" |
| Discovery.MdFiles | main.py:792-800 | the file list is sorted, and it is empty when the folder cannot be listed |
| Discovery.MdFilesCount | main.py:794-797 | each name occurs in the result as often as in the listing when it is a Markdown name, and otherwise not at all |
| Discovery.MdFilesMembership | main.py:794-797 | a name is in the result exactly when the folder lists it, it ends in ".md" in any letter case, and it is not "index.md" in any letter case |
| Discovery.MdFilesDetermined | main.py:794-797 | any sorted list holding the Markdown names of the listing, with their multiplicities, is the result |
| Discovery.CaseInsensitive | main.py:796 | "Notes.MD" is kept, while "INDEX.md" and "Index.MD" are dropped |
| Discovery.Example | main.py:792-800 | a folder listing b.md, a.md, index.md and c.txt yields a.md then b.md |
| Epub.Command | main.py:764-789 | no vector exactly when the stripped source is empty, is not a folder, or has no Markdown files; otherwise the executable, each Markdown file joined onto the folder in sorted order, then the options |
| Epub.RoundTrip | main.py:773-787 | the options after the input files read back as exactly the output, the title (fallback "Substack Archive"), the author (fallback "Unknown"), the table-of-contents switch and the split level (fallback "1") |
| Epub.MetadataRoundTrip | main.py:783-784 | a `title=` or `author=` metadata argument reads back as its key and its whole value, including any '=' in the value |
| Epub.InputsAreMarkdown | main.py:769-780 | each input path is the folder joined with a name that the folder lists and that is a Markdown name |
| Display.ReadBack | main.py:803-810 | when no element holds a double quote, splitting the preview line at spaces outside quotes gives back the vector, including empty elements and elements with spaces |
| Display.QuotedPair | main.py:806-810 | two elements that both need quotes show as the same line as the single element made of the first, a quote, a space, a quote and the second |
| Display.NotInjective | main.py:803-810 | the one-element vector `a b" "(c` and the two-element vector `a b`, `(c` show as the same line |
| Validation.ValidateDownload | main.py:959-988 | no problem exactly when all rules hold; the problem is "URL missing" exactly when the stripped URL is empty, "bad scheme" exactly when it is non-empty and does not start with "http", "no output folder" exactly when those pass and the folder is empty; a rate problem is reported only when the rate rule fails (not a number, or at most zero), and a date problem only when the rate rule passes, its bound fails the shape and, for the upper bound, the lower bound passes; together these fix which problem is reported for every form |
| Validation.StrippedDateMatches | main.py:980-985 | on a stripped bound, the pattern `^\d{4}-\d{2}-\d{2}$` (whose `$` also matches before a final newline) accepts exactly the ten-character `dddd-dd-dd` shape |
| Validation.TrailingNewlineMatches | main.py:980 | on an unstripped string, the pattern also accepts a date followed by one newline |
| Validation.LooserThanMessage | main.py:963-964 | "httpx://a" and "http" pass the scheme check but are not of the form the message asks for |
| Validation.StatedSchemePasses | main.py:963-964 | every URL beginning with "http://" or "https://" passes the scheme check |
| Validation.LooseSchemeAccepted | main.py:959-988 | a form with URL "httpx://a" and an output folder passes validation |
| Validation.ValidatedRateKept | main.py:744-749 | on a validated form, a rate other than "1" always reaches the downloader, and so do the URL and the output folder |
| Validation.ValidatedDates | main.py:979-986 | on a validated form, every date bound the downloader receives has the `dddd-dd-dd` shape |
| Validation.ValidateEpub | main.py:990-1011 | no problem exactly when the source is given, is a folder, holds Markdown files, and the output is given and ends in ".epub" in any case; the source problems come in that order, and the missing-folder problem names the stripped path |
| Validation.ValidatedEpubBuilds | main.py:1035-1043 | when validation and the builder see the same folder state and `_validate_epub` passes, `_build_epub_cmd` returns a vector, whose output ends in ".epub" |
| Validation.UnbuildableIsInvalid | main.py:764-771 | when validation and the builder see the same folder state and no vector can be built, validation reports a missing source, a missing folder or no Markdown files |
| Runner.OnDownloadClick | main.py:1016-1028 | while running: a warning and no change; otherwise a launch exactly when validation passes, which sets the run flag, records the download operation and sends exactly the vector `_build_download_cmd` builds, which reads back as the form's request; when validation fails, the "Validation Error" dialog shows the first problem's message; anything else leaves the state alone |
| Runner.OnConvertClick | main.py:1030-1046 | while running: a warning and no change; otherwise a launch exactly when validation passes on the file system as first read and the builder, reading the folder again, returns a vector; when validation fails, the "Validation Error" dialog shows the first problem's message; the "Could not build pandoc command." dialog appears exactly when validation passed and the builder returned nothing |
| Runner.SteadyFolderBuilds | main.py:1035-1043 | when the folder does not change between validation and building, the "Could not build pandoc command." dialog never appears |
| Runner.OnFinished | main.py:1098-1115 | the run flag is cleared; the download dialog (the stripped folder and the dry-run flag) or the ePub dialog (the stripped output path) appears exactly after exit status 0, for the operation last launched |
| Runner.LaunchOnlyWhenIdle | main.py:1048-1051 | only a click launches, only from the idle state, and the launch sets the run flag |
| Runner.SingleFlight | main.py:1017-1019 | over any run in which completions come only while a process runs, launches plus the initial run flag equal completions plus the final run flag |
| Runner.AtMostOneRunning | main.py:1031-1033 | from idle, launches outnumber completions by at most one |
| Calendar.Prev | main.py:1305-1310 | the previous month, with January going to December of the year before: the month index drops by one |
| Calendar.Next | main.py:1312-1317 | the next month, with December going to January of the year after: the month index rises by one |
| Calendar.PrevNextInverse | main.py:1305-1317 | stepping back then forward, or forward then back, returns to the same month |
| Calendar.ForwardIndex | main.py:1312-1317 | n steps forward advance the month index by exactly n |
| Calendar.TwelveIsAYear | main.py:1312-1317 | twelve steps forward give the same month of the next year |
| LogView.DropLinesSpec | main.py:1354 | deleting from "1.0" to the start of line k+1 leaves whole trailing lines with k fewer line breaks |
| LogView.Append | main.py:1347-1356 | the box holds whole trailing lines of all text written; its line count is the untrimmed count, capped at 2001 |
| LogView.NewestLines | main.py:1352-1354 | the trimmed box is the only trailing run of whole lines with that line count, so it holds the newest lines |
| LogView.AppendBatch | main.py:1334-1356 | appending two messages one after the other, trimming each time, gives the same box as appending their concatenation once |

## Left out

- Widgets, layout, traces, file pickers, dialog contents and `messagebox`: dialogs appear in the model only as the `Effect` values a handler returns.
- Threads, `queue.Queue` and `after` scheduling, as in `_run_command` and `_poll_log_queue`: draining the queue is covered only as a sequence of appends (`LogView.AppendBatch`).
- `subprocess.Popen`, output streaming and opening folders in the file manager: only the outcome enters the model, and success means exit status 0.
- Reading and writing `config.json`, `save_config` and `_save_settings` are left out, except the strip of the downloader path at main.py:1368 (`Download.SavedPathSameExecutable`). The file reaches the model only as an already decoded `ConfigFile`.
- `float()` and `str(float)` are uninterpreted `Host` functions. A NaN rate passes `r <= 0`, as in Python.
- `os.path.join`, `os.path.isdir` and `os.listdir` are uninterpreted `Host` functions, and an `OSError` from listing is `None`.
- `\d` is modelled as ASCII digits only. Python also accepts other Unicode decimal digits.
- `lower()` is modelled as an ASCII fold. It agrees with Python for every comparison the code makes, all against ASCII literals.
- The calendar grid, `strptime` of the current field, and `datetime`'s year range 1 to 9999 are left out. Month stepping is modelled on unbounded years.
- The multi-line preview text of `_update_epub_command` and the widget updates that show the previews are left out; the shared `_cmd_to_display_string` is modelled.
- `_create_variables` is modelled only for the Download tab's widget defaults (`Forms.FreshDownloadForm`).
- Clearing the log by hand and its scrolling are left out.
- Validation.ValidateEpub: the two output-file problems are not told apart in the contract. Both are covered by the `None` characterisation.
- Display.ReadBack: it holds only for vectors without double quotes inside elements. With quotes the line is ambiguous, as `Display.NotInjective` shows.

## Findings

| source | as written | input that shows it | evidently intended | confidence | as-written member | corrected member |
|---|---|---|---|---|---|---|
| main.py:55-64 | `{**DEFAULTS, **data}` assumes the decoded JSON is an object, and only `JSONDecodeError` and `OSError` are caught | a `config.json` holding `[]`, which makes `**data` raise `TypeError` at start-up | any settings file that is not a JSON object falls back to the defaults, like an undecodable one | not executed | Settings.NonObjectDocumentRaises | Settings.LoadConfig |
| main.py:58-63 | the file is opened as UTF-8 text, and `UnicodeDecodeError` is neither a `JSONDecodeError` nor an `OSError` | a `config.json` saved as UTF-16, starting with the bytes FF FE, which makes reading it raise `UnicodeDecodeError` at start-up | a settings file that cannot be read as text falls back to the defaults, like an unreadable one | not executed | Settings.NotUtf8Raises | Settings.LoadConfig |
| main.py:59-63 | only `JSONDecodeError` and `OSError` are caught around `json.load` | a `config.json` holding a list nested about 100000 levels deep, on which `json.load` raises `RecursionError` | any settings file that cannot be decoded falls back to the defaults | not executed | Settings.DecodeCrashRaises | Settings.LoadConfig |
