/**
 The loop of `main` over the uploaded files (app.py:82-156): each upload is
 converted on its own, a successful conversion is reported with its sizes
 and reduction, and a failed one is reported as unreadable without stopping
 the loop. The widgets, tabs, download buttons and messages are not
 modelled; a report keeps only the values they display.
 */
module Uploads {
  import opened Text
  import opened Conversion
  import opened Metrics

  /** One uploaded file, with what staging and each extractor would do for it. */
  datatype Upload = Upload(name: string, size: nat, staging: Staging, primary: Outcome, fallback: Outcome)

  /** What the page shows for one upload. */
  datatype Report =
    | Shown(text: string, originalSize: nat, convertedSize: nat, reduction: real)
    | Unreadable(name: string)

  datatype Processed = Processed(reports: seq<Report>, events: seq<Event>)

  function Convert(u: Upload): Run {
    ConvertFileStream(u.name, u.staging, u.primary, u.fallback)
  }

  /** The body of the loop for one upload (app.py:86-99, 154-156). */
  function ProcessUpload(u: Upload): (p: Processed)
    ensures |p.reports| == 1
    ensures p.reports[0].Shown? <==> Convert(u).result.Converted?
    ensures p.reports[0].Shown? ==>
      && p.reports[0].text == Convert(u).result.text
      && p.reports[0].originalSize == u.size
      && p.reports[0].convertedSize == Utf8Length(p.reports[0].text)
      && (p.reports[0].reduction > 0.0 <==> p.reports[0].convertedSize < u.size)
    ensures p.reports[0].Unreadable? ==> p.reports[0].name == u.name
    ensures p.events == Convert(u).events
  {
    var run := Convert(u);
    match run.result
    case Converted(text) =>
      var converted := Utf8Length(text);
      Processed([Shown(text, u.size, converted, Reduction(u.size, converted))], run.events)
    case _ =>
      Processed([Unreadable(u.name)], run.events)
  }

  /** The whole loop: uploads are processed one after another. */
  function ProcessBatch(us: seq<Upload>): (b: Processed)
    // Per-upload isolation: each report depends on its own upload only.
    ensures |b.reports| == |us|
    ensures forall i :: 0 <= i < |us| ==> b.reports[i] == ProcessUpload(us[i]).reports[0]
  {
    if us == [] then Processed([], [])
    else
      var first := ProcessUpload(us[0]);
      var rest := ProcessBatch(us[1..]);
      Processed(first.reports + rest.reports, first.events + rest.events)
  }

  /** The staging path of an upload whose staging succeeded. */
  function StagedPathOf(u: Upload): set<string> {
    if u.staging.Staged? then {StagedName(u.name)} else {}
  }

  /** The staging paths of the uploads whose staging succeeded. */
  function StagedPaths(us: seq<Upload>): set<string> {
    if us == [] then {} else StagedPathOf(us[0]) + StagedPaths(us[1..])
  }

  /** One upload whose write did not fail part-way leaves only its own
      staging path removed. */
  lemma UploadCleanup(files: set<string>, u: Upload)
    requires !u.staging.WriteFailed?
    ensures Apply(files, ProcessUpload(u).events) == files - StagedPathOf(u)
  {
    if u.staging.Staged? {
      StagingCleanup(files, u.name, u.primary, u.fallback);
    } else {
      StagingFailureCleansNothing(files, u.name, u.staging.cause, u.primary, u.fallback);
    }
  }

  /** No staging write failed part-way. */
  predicate NoPartialWrites(us: seq<Upload>) {
    forall i :: 0 <= i < |us| ==> !us[i].staging.WriteFailed?
  }

  /** After a batch in which no write failed part-way, every staged file is
      gone and every other path is as it was, even when several uploads
      share a name and so a staging path. */
  lemma {:induction false} BatchCleanup(files: set<string>, us: seq<Upload>)
    requires NoPartialWrites(us)
    ensures Apply(files, ProcessBatch(us).events) == files - StagedPaths(us)
  {
    if us != [] {
      var first := ProcessUpload(us[0]);
      var rest := us[1..];
      assert ProcessBatch(us).events == first.events + ProcessBatch(rest).events;
      ApplyConcat(files, first.events, ProcessBatch(rest).events);
      var mid := Apply(files, first.events);
      UploadCleanup(files, us[0]);
      assert NoPartialWrites(rest) by {
        forall i | 0 <= i < |rest| ensures !rest[i].staging.WriteFailed? {
          assert rest[i] == us[i + 1];
        }
      }
      BatchCleanup(mid, rest);
    }
  }

  /** A "report.pdf" of 2000 bytes whose structured extraction throws while
      the raw extractor returns "Hello" is shown with the fallback note, 45
      bytes long, 97.75% smaller. */
  lemma PdfFallbackScenario(cause: string)
    ensures var r := ProcessUpload(Upload("report.pdf", 2000, Staged, Threw(cause), Ok("Hello"))).reports[0];
      && r.Shown?
      && r.text == FallbackNote + "Hello"
      && r.convertedSize == 45
      && r.reduction == 97.75
  {
    var name := "report.pdf";
    var u := Upload(name, 2000, Staged, Threw(cause), Ok("Hello"));
    PdfNameByLastFour(name);
    assert !IsSpace("Hello"[0]);
    assert Convert(u).result == Converted(FallbackNote + "Hello");
    NotedHelloLength();
    assert Reduction(2000, 45) == 97.75;
  }

  /** The fallback note is 40 ASCII characters, so 40 bytes. */
  lemma FallbackNoteBytes()
    ensures Utf8Length(FallbackNote) == 40
  {
    var note := FallbackNote;
    assert note[|note| - 1] == '\n';
    Utf8LengthAscii(note);
  }

  /** Text extracted by the fallback is reported 40 bytes longer than the
      raw text: the note's length. */
  lemma NotedLength(raw: string)
    ensures Utf8Length(FallbackNote + raw) == 40 + Utf8Length(raw)
  {
    FallbackNoteBytes();
    Utf8LengthAppend(FallbackNote, raw);
  }

  /** Whenever the fallback supplies the text, the reported size is the
      note's 40 bytes plus the raw text's UTF-8 length. */
  lemma FallbackReportSize(u: Upload)
    requires u.staging.Staged? && FallbackConsulted(u.name, u.primary)
    requires u.fallback.Ok? && !IsBlank(u.fallback.text)
    ensures ProcessUpload(u).reports[0].Shown?
    ensures ProcessUpload(u).reports[0].convertedSize == 40 + Utf8Length(u.fallback.text)
  {
    NotedLength(u.fallback.text);
  }

  /** The fallback note is ASCII, so the noted "Hello" is 45 bytes. */
  lemma NotedHelloLength()
    ensures Utf8Length(FallbackNote + "Hello") == 45
  {
    NotedLength("Hello");
    Utf8LengthAscii("Hello");
  }

  /** A "data.xlsx" whose structured extraction throws has no fallback and
      is shown as unreadable; the extractor error is not its message. */
  lemma SpreadsheetScenario(cause: string, fallback: Outcome)
    ensures Convert(Upload("data.xlsx", 10, Staged, Threw(cause), fallback)).result
         == Failed(ConversionFailedPrefix + NoContentMessage)
    ensures ProcessUpload(Upload("data.xlsx", 10, Staged, Threw(cause), fallback)).reports[0]
         == Unreadable("data.xlsx")
  {
    var name := "data.xlsx";
    PdfNameByLastFour(name);
    assert name[|name| - 4] == 'x';
    assert !PrimaryHit(Threw(cause));
  }
}
