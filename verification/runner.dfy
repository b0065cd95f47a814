/**
 * The action handlers and the completion callback: at most one external
 * process at a time, validation before every launch, and the completion
 * dialog only after a clean exit.
 */
module Runner {
  import opened Wrappers
  import opened Text
  import opened Forms
  import Download
  import Epub
  import Validation

  datatype Operation = DownloadOp | EpubOp

  /**
   * `_is_running` and `_current_operation`; the operation is set at each
   * launch and never cleared.
   */
  datatype State = State(running: bool, operation: Option<Operation>)

  const Idle := State(false, None)

  /** How the background run of a command ended. */
  datatype Outcome =
    | Exited(code: int)   // the process ran and returned this exit status
    | NotFound            // Popen raised FileNotFoundError
    | Failed              // any other exception

  /** What a handler does that the user can see. */
  datatype Effect =
    | Nothing
    | Warn(line: string)                        // a line appended to the log
    | ShowError(title: string, message: string) // an error dialog
    | Launch(op: Operation, cmd: seq<string>)   // a command started on a worker thread
    | DownloadDone(folder: string, dryRun: bool)
    | EpubDone(path: string)

  const BusyWarning := "[WARNING] A process is already running. Please wait.\n"
  const BuildFailure := "Could not build pandoc command."

  /** An outcome counts as success only for exit status 0. */
  predicate Succeeded(o: Outcome) {
    o.Exited? && o.code == 0
  }

  /** The inputs the handlers react to; each carries the form as it reads at that moment. */
  datatype Event =
    | DownloadClick(form: DownloadForm)
    | ConvertClick(epub: EpubForm, later: Host)  // `later`: the file system as the builder reads it
    | Finished(outcome: Outcome, form: DownloadForm, epub: EpubForm)

  /** `_on_download_click`. */
  function OnDownloadClick(s: State, f: DownloadForm, h: Host): (r: (State, Effect))
    ensures s.running ==> r == (s, Warn(BusyWarning))
    ensures r.1.Launch? <==> !s.running && Validation.ValidateDownload(f, h).None?
    ensures r.1.Launch? ==> r.0 == State(true, Some(DownloadOp)) && r.1.op == DownloadOp
                            && r.1.cmd == Download.Command(f, h)
                            && Download.Parse(r.1.cmd) == Some(Download.Intent(f, h))
    ensures !r.1.Launch? ==> r.0 == s
    ensures !s.running && Validation.ValidateDownload(f, h).Some? ==>
              r.1 == ShowError("Validation Error", Validation.ValidateDownload(f, h).value.Message())
  {
    if s.running then (s, Warn(BusyWarning))
    else match Validation.ValidateDownload(f, h)
      case Some(p) => (s, ShowError("Validation Error", p.Message()))
      case None =>
        Download.RoundTrip(f, h);
        (State(true, Some(DownloadOp)), Launch(DownloadOp, Download.Command(f, h)))
  }

  /**
   * `_on_convert_click`. Validation and the builder each read the file
   * system: `h` is what `_validate_epub` sees and `later` what
   * `_build_epub_cmd` sees when it lists the folder again.
   */
  function OnConvertClick(s: State, e: EpubForm, h: Host, later: Host): (r: (State, Effect))
    ensures s.running ==> r == (s, Warn(BusyWarning))
    ensures r.1.Launch? <==> !s.running && Validation.ValidateEpub(e, h).None? && Epub.Command(e, later).Some?
    ensures r.1.Launch? ==> r.0 == State(true, Some(EpubOp)) && r.1.op == EpubOp
                            && Some(r.1.cmd) == Epub.Command(e, later)
    ensures !r.1.Launch? ==> r.0 == s
    ensures r.1 == ShowError("Error", BuildFailure)
        <==> !s.running && Validation.ValidateEpub(e, h).None? && Epub.Command(e, later).None?
    ensures !s.running && Validation.ValidateEpub(e, h).Some? ==>
              r.1 == ShowError("Validation Error", Validation.ValidateEpub(e, h).value.Message())
  {
    if s.running then (s, Warn(BusyWarning))
    else match Validation.ValidateEpub(e, h)
      case Some(p) =>
        assert |"Validation Error"| != |"Error"|;
        (s, ShowError("Validation Error", p.Message()))
      case None =>
        match Epub.Command(e, later)
        case None => (s, ShowError("Error", BuildFailure))
        case Some(cmd) => (State(true, Some(EpubOp)), Launch(EpubOp, cmd))
  }

  /**
   * When the folder does not change between validation and building, the
   * "Could not build pandoc command." dialog never appears.
   */
  lemma SteadyFolderBuilds(s: State, e: EpubForm, h: Host)
    ensures OnConvertClick(s, e, h, h).1 != ShowError("Error", BuildFailure)
  {
    if !s.running && Validation.ValidateEpub(e, h).None? {
      Validation.ValidatedEpubBuilds(e, h);
    }
  }

  /**
   * `_on_command_finished`: the process slot is freed; after a clean exit
   * the dialog for the last launched operation opens with the folder or
   * file the form names at that moment.
   */
  function OnFinished(s: State, o: Outcome, f: DownloadForm, e: EpubForm): (r: (State, Effect))
    ensures r.0 == s.(running := false)
    ensures r.1.DownloadDone? <==> Succeeded(o) && s.operation == Some(DownloadOp)
    ensures r.1.EpubDone? <==> Succeeded(o) && s.operation == Some(EpubOp)
    ensures r.1.DownloadDone? ==> r.1.folder == Trim(f.outputDir) && r.1.dryRun == f.dryRun
    ensures r.1.EpubDone? ==> r.1.path == Trim(e.output)
    ensures !Succeeded(o) ==> r.1 == Nothing
  {
    var s' := s.(running := false);
    if !Succeeded(o) then (s', Nothing)
    else match s.operation
      case Some(DownloadOp) => (s', DownloadDone(Trim(f.outputDir), f.dryRun))
      case Some(EpubOp) => (s', EpubDone(Trim(e.output)))
      case None => (s', Nothing)
  }

  function Step(s: State, ev: Event, h: Host): (State, Effect) {
    match ev
    case DownloadClick(f) => OnDownloadClick(s, f, h)
    case ConvertClick(e, later) => OnConvertClick(s, e, h, later)
    case Finished(o, f, e) => OnFinished(s, o, f, e)
  }

  /** The state after a sequence of events, and the effects in order. */
  function Run(s: State, evs: seq<Event>, h: Host): (State, seq<Effect>)
    decreases |evs|
  {
    if evs == [] then (s, [])
    else
      var (s1, eff) := Step(s, evs[0], h);
      var (s2, effs) := Run(s1, evs[1..], h);
      (s2, [eff] + effs)
  }

  /** Completions arrive only while a process runs: one per launch, from its worker thread. */
  predicate Feasible(s: State, evs: seq<Event>, h: Host)
    decreases |evs|
  {
    evs == [] || ((evs[0].Finished? ==> s.running) && Feasible(Step(s, evs[0], h).0, evs[1..], h))
  }

  function Launches(effs: seq<Effect>): nat {
    if effs == [] then 0 else (if effs[0].Launch? then 1 else 0) + Launches(effs[1..])
  }

  function Completions(evs: seq<Event>): nat {
    if evs == [] then 0 else (if evs[0].Finished? then 1 else 0) + Completions(evs[1..])
  }

  /** Only a click can launch, and only from the idle state. */
  lemma LaunchOnlyWhenIdle(s: State, ev: Event, h: Host)
    ensures Step(s, ev, h).1.Launch? ==> !s.running && !ev.Finished? && Step(s, ev, h).0.running
  {
  }

  /**
   * At most one process at a time: over any feasible run, every launch is
   * matched by a completion except, while a process still runs, exactly
   * one.
   */
  lemma {:induction false} SingleFlight(s: State, evs: seq<Event>, h: Host)
    requires Feasible(s, evs, h)
    ensures var (s', effs) := Run(s, evs, h);
            Launches(effs) + (if s.running then 1 else 0) == Completions(evs) + (if s'.running then 1 else 0)
    decreases |evs|
  {
    if evs != [] {
      var (s1, eff) := Step(s, evs[0], h);
      var (s2, effs) := Run(s1, evs[1..], h);
      SingleFlight(s1, evs[1..], h);
      LaunchOnlyWhenIdle(s, evs[0], h);
      assert Run(s, evs, h) == (s2, [eff] + effs);
      assert ([eff] + effs)[1..] == effs;
      if evs[0].Finished? {
        assert !s1.running;
      } else if !eff.Launch? {
        assert s1 == s;
      }
    }
  }

  /** From the idle start, the launches outnumber the completions by at most one. */
  lemma AtMostOneRunning(evs: seq<Event>, h: Host)
    requires Feasible(Idle, evs, h)
    ensures Completions(evs) <= Launches(Run(Idle, evs, h).1) <= Completions(evs) + 1
  {
    SingleFlight(Idle, evs, h);
  }
}
