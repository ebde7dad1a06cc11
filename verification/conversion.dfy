/**
 `convert_file_stream` (app.py:27-61): stage the upload as `temp_<name>`,
 ask the structured extractor (MarkItDown) for its text, fall back to the raw
 PDF extractor (pdfminer) for ".pdf" names when that yields nothing, wrap
 every failure raised inside the `try` as "Conversion failed: ...", and
 delete the staged file in the `finally`.

 The two extractors are libraries whose behaviour is not modelled: each call
 is represented by what it produced, an `Outcome`. Staging is represented the
 same way. The file system is a set of existing paths, changed only by the
 events a run records.
 */
module Conversion {
  import opened Text

  /** What one extractor call produced: its text, or the message (`str(e)`)
      of the exception it raised. */
  datatype Outcome = Ok(text: string) | Threw(cause: string)

  /** What writing the upload to its staging path did. `open(..., "wb")`
      creates the file before `write` runs, so a failed write leaves it on
      disk; a failed open creates nothing. */
  datatype Staging = Staged | OpenFailed(cause: string) | WriteFailed(cause: string)

  /** How a call of `convert_file_stream` ends: it returns text, raises the
      wrapping `ValueError`, or lets the staging error escape unwrapped. */
  datatype Result =
    | Converted(text: string)
    | Failed(message: string)
    | StagingFailed(cause: string)

  /** The observable steps of one run, in order. */
  datatype Event =
    | Opened(path: string)
    | CalledPrimary(path: string)
    | CalledFallback(path: string)
    | Removed(path: string)

  datatype Run = Run(result: Result, events: seq<Event>)

  const StagingPrefix := "temp_"
  const FallbackNote := "**Note: Extracted using PDF Fallback**\n\n"
  const NoContentMessage := "Could not extract text content."
  const FallbackFailedPrefix := "PDF Fallback failed: "
  const ConversionFailedPrefix := "Conversion failed: "

  /** The path the upload is staged under. */
  function StagedName(name: string): string {
    StagingPrefix + name
  }

  /** The ".pdf" test is made on the staged path, but "temp_" cannot supply
      any of the four characters it looks at, so it decides the same as on
      the uploaded name. */
  lemma StagedNameKeepsPdfSuffix(name: string)
    ensures IsPdfName(StagedName(name)) <==> IsPdfName(name)
  {
    var p := StagedName(name);
    PdfNameByLastFour(p);
    PdfNameByLastFour(name);
    if |name| >= 4 {
      assert p[|p| - 4..] == name[|name| - 4..];
      assert p[|p| - 4] == name[|name| - 4];
      assert p[|p| - 3] == name[|name| - 3];
      assert p[|p| - 2] == name[|name| - 2];
      assert p[|p| - 1] == name[|name| - 1];
    } else {
      assert p[|p| - 4] in "temp_";
    }
  }

  /** The structured extractor produced usable text. */
  predicate PrimaryHit(primary: Outcome) {
    primary.Ok? && !IsBlank(primary.text)
  }

  /** After staging, the raw PDF extractor is consulted exactly when the
      structured one missed and the name ends in ".pdf". */
  predicate FallbackConsulted(name: string, primary: Outcome) {
    !PrimaryHit(primary) && IsPdfName(name)
  }

  /** How the body of the outer `try` ends. */
  datatype Exit = Return(text: string) | Raise(message: string)

  /** The body of the outer `try` (app.py:37-54), given what each extractor
      would produce for the staged path. */
  function TryBody(path: string, primary: Outcome, fallback: Outcome): (exit: Exit)
    ensures exit.Return? ==> !IsBlank(exit.text)
  {
    if PrimaryHit(primary) then Return(primary.text)
    else if IsPdfName(path) then
      match fallback
      case Threw(cause) => Raise(FallbackFailedPrefix + cause)
      case Ok(raw) =>
        if !IsBlank(raw) then
          AppendVisibleNotBlank(FallbackNote, raw);
          Return(FallbackNote + raw)
        else Raise(NoContentMessage)
    else Raise(NoContentMessage)
  }

  /** The outer `except Exception` handler: every raise inside the `try`,
      including the fallback's own `ValueError`, is wrapped once more. */
  function Wrap(exit: Exit): Result {
    match exit
    case Return(text) => Converted(text)
    case Raise(message) => Failed(ConversionFailedPrefix + message)
  }

  /** How a call ends once staging succeeded: the outer `try` with its
      `except` handler, on the staged path of `name`. */
  function Decide(name: string, primary: Outcome, fallback: Outcome): (r: Result)
    // Anything returned has visible text, and no staging error can appear.
    ensures r.Converted? ==> !IsBlank(r.text)
    ensures !r.StagingFailed?
    // Usable structured text is returned unchanged.
    ensures PrimaryHit(primary) ==> r == Converted(primary.text)
    // The fallback's text is returned behind the provenance note.
    ensures (FallbackConsulted(name, primary) && fallback.Ok? && !IsBlank(fallback.text))
              ==> r == Converted(FallbackNote + fallback.text)
    // A fallback exception is wrapped twice.
    ensures (FallbackConsulted(name, primary) && fallback.Threw?)
              ==> r == Failed(ConversionFailedPrefix + FallbackFailedPrefix + fallback.cause)
    // No usable text and no fallback error: the same message for every name.
    ensures (!PrimaryHit(primary) && (!IsPdfName(name) || (fallback.Ok? && IsBlank(fallback.text))))
              ==> r == Failed(ConversionFailedPrefix + NoContentMessage)
  {
    StagedNameKeepsPdfSuffix(name);
    Wrap(TryBody(StagedName(name), primary, fallback))
  }

  /** The events of one call: staging opens the path, the structured
      extractor is called, the raw extractor is called when the staged path
      ends in ".pdf" and the first call missed, and the `finally` removes
      the path. A failed open records nothing; a failed write only the open. */
  function Trace(name: string, staging: Staging, primary: Outcome): (events: seq<Event>)
    // The structured extractor runs exactly when staging succeeded.
    ensures CalledPrimary(StagedName(name)) in events <==> staging.Staged?
    // The fallback runs exactly when staged, missed and named ".pdf".
    ensures CalledFallback(StagedName(name)) in events <==> staging.Staged? && FallbackConsulted(name, primary)
    // Staging opens the file first; once it succeeded, the `finally` removes it last.
    ensures staging.OpenFailed? <==> events == []
    ensures events != [] ==> events[0] == Opened(StagedName(name))
    ensures staging.Staged? <==> events != [] && events[|events| - 1] == Removed(StagedName(name))
    ensures forall e :: e in events ==> e.path == StagedName(name)
  {
    var path := StagedName(name);
    match staging
    case OpenFailed(_) => []
    case WriteFailed(_) => [Opened(path)]
    case Staged =>
      StagedNameKeepsPdfSuffix(name);
      StagedTrace(path, !PrimaryHit(primary) && IsPdfName(path))
  }

  /** The events of a call whose staging succeeded. */
  function StagedTrace(path: string, fallback: bool): (events: seq<Event>)
    ensures CalledPrimary(path) in events
    ensures CalledFallback(path) in events <==> fallback
    ensures events[0] == Opened(path) && events[|events| - 1] == Removed(path)
    ensures forall e :: e in events ==> e.path == path
  {
    if fallback then [Opened(path), CalledPrimary(path), CalledFallback(path), Removed(path)]
    else [Opened(path), CalledPrimary(path), Removed(path)]
  }

  /** A staged call makes one structured call, then at most one fallback
      call after it, and one removal. */
  lemma StagedTraceOrder(path: string, fallback: bool)
    ensures var events := StagedTrace(path, fallback);
      && multiset(events)[CalledPrimary(path)] == 1
      && multiset(events)[CalledFallback(path)] <= 1
      && multiset(events)[Removed(path)] == 1
      && forall i, j :: 0 <= i < |events| && 0 <= j < |events|
           && events[i] == CalledPrimary(path) && events[j] == CalledFallback(path)
           ==> i < j
  {
  }

  /** Once staging succeeded, a call asks the structured extractor exactly
      once, then the fallback at most once and only after it, and removes
      the staged path exactly once. */
  lemma StagedCallOrder(name: string, primary: Outcome)
    ensures var events := Trace(name, Staged, primary);
      var path := StagedName(name);
      && multiset(events)[CalledPrimary(path)] == 1
      && multiset(events)[CalledFallback(path)] <= 1
      && multiset(events)[Removed(path)] == 1
      && forall i, j :: 0 <= i < |events| && 0 <= j < |events|
           && events[i] == CalledPrimary(path) && events[j] == CalledFallback(path)
           ==> i < j
  {
    var path := StagedName(name);
    var fallback := !PrimaryHit(primary) && IsPdfName(path);
    assert Trace(name, Staged, primary) == StagedTrace(path, fallback);
    StagedTraceOrder(path, fallback);
  }

  /** One call of `convert_file_stream` on an upload called `name`. */
  function ConvertFileStream(name: string, staging: Staging, primary: Outcome, fallback: Outcome): (run: Run)
    // Anything returned has visible text.
    ensures run.result.Converted? ==> !IsBlank(run.result.text)
    // A staging error escapes as it is: unwrapped, and before any extractor runs.
    ensures run.result.StagingFailed? <==> !staging.Staged?
    ensures !staging.Staged? ==> run.result.cause == staging.cause
    ensures run.result.StagingFailed? ==> CalledPrimary(StagedName(name)) !in run.events
  {
    var events := Trace(name, staging, primary);
    match staging
    case Staged => Run(Decide(name, primary, fallback), events)
    case OpenFailed(cause) => Run(StagingFailed(cause), events)
    case WriteFailed(cause) => Run(StagingFailed(cause), events)
  }

  /** The effect of one event on the set of existing paths. Removal is
      guarded by `os.path.exists`, so removing a missing path changes nothing. */
  function Step(files: set<string>, e: Event): set<string> {
    match e
    case Opened(p) => files + {p}
    case Removed(p) => files - {p}
    case CalledPrimary(_) => files
    case CalledFallback(_) => files
  }

  /** The set of existing paths after the events of `events`, in order. */
  function Apply(files: set<string>, events: seq<Event>): set<string>
    decreases |events|
  {
    if events == [] then files else Apply(Step(files, events[0]), events[1..])
  }

  lemma {:induction false} ApplyConcat(files: set<string>, a: seq<Event>, b: seq<Event>)
    ensures Apply(files, a + b) == Apply(Apply(files, a), b)
    decreases |a|
  {
    if a == [] {
      assert a + b == b;
    } else {
      assert (a + b)[1..] == a[1..] + b;
      ApplyConcat(Step(files, a[0]), a[1..], b);
    }
  }

  /** A staged call opens its path once and leaves every other path as it
      was and the staged one absent. */
  lemma StagedTraceCleanup(files: set<string>, path: string, fallback: bool)
    ensures Apply(files, StagedTrace(path, fallback)) == files - {path}
    ensures multiset(StagedTrace(path, fallback))[Opened(path)] == 1
  {
    var events := StagedTrace(path, fallback);
    var withPath := files + {path};
    var calls := events[1..];
    assert Apply(files, events) == Apply(withPath, calls);
    var last := calls[1..];
    assert Apply(withPath, calls) == Apply(withPath, last);
    if fallback {
      assert Apply(withPath, last) == Apply(withPath, last[1..]);
      last := last[1..];
    }
    assert last == [Removed(path)];
    assert Apply(withPath, [Removed(path)]) == Apply(withPath - {path}, []);
  }

  /** Once staging succeeded, the staged path is created exactly once and is
      gone afterwards, whatever the extractors did, and no other path is
      touched. */
  lemma StagingCleanup(files: set<string>, name: string, primary: Outcome, fallback: Outcome)
    ensures Apply(files, ConvertFileStream(name, Staged, primary, fallback).events)
         == files - {StagedName(name)}
    ensures multiset(ConvertFileStream(name, Staged, primary, fallback).events)[Opened(StagedName(name))] == 1
  {
    var path := StagedName(name);
    StagedTraceCleanup(files, path, !PrimaryHit(primary) && IsPdfName(path));
  }
  /** When staging itself raised, no cleanup runs: a failed open touches
      nothing, and a failed write leaves the file `open` created behind,
      because the `finally` belongs to the later `try`. */
  lemma StagingFailureCleansNothing(files: set<string>, name: string, cause: string, primary: Outcome, fallback: Outcome)
    ensures Apply(files, ConvertFileStream(name, OpenFailed(cause), primary, fallback).events) == files
    ensures Apply(files, ConvertFileStream(name, WriteFailed(cause), primary, fallback).events)
         == files + {StagedName(name)}
  {
    var path := StagedName(name);
    assert Trace(name, WriteFailed(cause), primary) == [Opened(path)];
    assert Apply(files, [Opened(path)]) == Apply(files + {path}, []);
  }
}
