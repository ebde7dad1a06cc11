# Universal Document Reader — conversion pipeline model

A Dafny model of the conversion core of the Universal Document Reader, a small
Streamlit app (`app.py`) that turns uploaded office, PDF and HTML documents into
Markdown text. It models:

- `convert_file_stream`: the upload is staged as `temp_<name>`. The structured
  extractor (MarkItDown) is asked for text first. When that throws or yields
  only whitespace and the name ends in `.pdf` (any case), the raw PDF extractor
  (pdfminer) is asked next, and its text is returned behind the note
  `**Note: Extracted using PDF Fallback**` and a blank line. Otherwise the call
  fails. Every failure raised inside the `try` is wrapped as
  `Conversion failed: ...`, and a `finally` deletes the staged file.
- the per-upload loop of `main`: the converted size in UTF-8 bytes, the
  reduction percentage, and whether the page reports the text as smaller.
- `format_size`: which unit (B, KB, MB, GB, TB) a byte count is shown in.

Modules: `Text` (Python's `strip`, `lower`, `endswith` and UTF-8 length),
`Conversion` (the pipeline, its event trace and the file-system effect of the
trace), `Metrics` (reduction and unit selection), and `Uploads` (the loop over
uploads).

Each extractor call is an `Outcome`: `Ok(text)` or `Threw(cause)`. Staging is a
`Staging`: `Staged`, `OpenFailed(cause)` or `WriteFailed(cause)`. A run returns
its `Result` and the list of `Event`s it performed: open, extractor calls,
remove. `Apply` plays those events on a set of existing paths.

Two behaviours of the code are easy to misread:

- The outer `except` (app.py:56-57) also catches the fallback's own
  `ValueError`, so the message is `Conversion failed: PDF Fallback failed: <cause>`.
- The staging `open`/`write` (app.py:33-34) sits before the `try`, so its
  error escapes unwrapped and no `finally` runs. A `write` that fails after
  `open` created the file leaves that file on disk
  (`Conversion.StagingFailureCleansNothing`).

## Model

| member | source | states |
|---|---|---|
| `Text.Strip` | app.py:40 | `strip()` result is empty exactly when every character is whitespace in Python's sense; a non-empty result starts and ends with a visible character and is exactly the input without its leading and trailing whitespace runs |
| `Text.StripIdempotent` | app.py:40 | stripping an already stripped text changes nothing |
| `Text.AppendVisibleNotBlank` | app.py:49-50 | a text with a visible character stays non-blank behind any prefix, so the noted fallback text is never blank |
| `Text.PdfNameByLastFour` | app.py:46 | `name.lower().endswith(".pdf")` holds exactly when the last four characters are `.`, `p`/`P`, `d`/`D`, `f`/`F` |
| `Text.Utf8Length` | app.py:93 | the UTF-8 byte length is between one and four bytes per character |
| `Text.Utf8LengthAscii` | app.py:93 | ASCII text takes one byte per character |
| `Conversion.StagedNameKeepsPdfSuffix` | app.py:31-46 | testing `.pdf` on `temp_<name>` decides the same as testing it on the uploaded name |
| `Conversion.TryBody` | app.py:37-54 | whatever the `try` body returns has visible text |
| `Conversion.Decide` | app.py:36-57 | once staged: usable structured text is returned as is; for a `.pdf` name, usable fallback text is returned behind the note; a fallback exception yields `Conversion failed: PDF Fallback failed: <cause>`; no usable text yields `Conversion failed: Could not extract text content.`, for `.pdf` and other names alike; every returned text is non-blank |
| `Conversion.Trace` | app.py:31-61 | the structured extractor is called exactly when staging succeeded; the fallback is called exactly when staged, the primary missed and the name ends in `.pdf`; a failed open records nothing; the staged path is opened first and, after successful staging, removed last; no other path is touched |
| `Conversion.StagedCallOrder` | app.py:38-52 | once staged, the structured extractor is called exactly once, the fallback at most once and only after it, and the staged path is removed exactly once |
| `Conversion.ConvertFileStream` | app.py:27-61 | a staging error escapes unwrapped, with its own cause, before any extractor call, and only a staging error does; every returned text is non-blank |
| `Conversion.StagingCleanup` | app.py:31-61 | after successful staging the staged path is opened exactly once and no longer exists on any exit, and no other path changes |
| `Conversion.StagingFailureCleansNothing` | app.py:31-36 | a failed open leaves the file system unchanged; a failed write leaves the staged file behind, since the `finally` never runs |
| `Metrics.Reduction` | app.py:96-99 | for a non-empty upload, reduction × original = (original − converted) × 100; 0 for an empty upload; never above 100; positive exactly when the text is smaller than the upload; zero exactly for an empty upload or equal sizes |
| `Metrics.ReductionAntitone` | app.py:96-99 | a larger converted size never gives a larger reduction |
| `Metrics.ReductionExample` | app.py:96-99 | 1000 bytes converted to 600 gives 40; an empty upload gives 0 |
| `Metrics.UnitFromBounds` | app.py:21-25 | the chosen unit is the first of B, KB, MB, GB whose scaled value is below 1024, or TB when none is |
| `Metrics.UnitMonotone` | app.py:19-25 | a larger size never gets a smaller unit |
| `Metrics.FormatSize` | app.py:19-25 | the shown number times 1024 to the unit's power is the size, and the number is below 1024 unless the unit is TB |
| `Uploads.ProcessUpload` | app.py:86-99 | an upload is shown exactly when its conversion returned text; the shown size is the UTF-8 length of that text; the reduction is positive exactly when that size is below the upload's size; a failed upload is reported as unreadable under its own name |
| `Uploads.ProcessBatch` | app.py:82-88 | every upload gets a report, and each report depends only on its own upload, so a failure does not stop later uploads |
| `Uploads.UploadCleanup` | app.py:31-61 | one upload with no part-way write failure removes its own staging path and touches nothing else |
| `Uploads.BatchCleanup` | app.py:82-88 | after a batch with no part-way write failure, every successfully staged path is gone and all other paths are unchanged, even when uploads share a name |
| `Uploads.NotedLength` | app.py:50 | for every raw text, the noted fallback text is 40 bytes longer in UTF-8 than the raw text |
| `Uploads.FallbackReportSize` | app.py:45-50 | whenever the fallback supplies the text, the upload is shown with a converted size (app.py:93) of 40 bytes plus the raw text's UTF-8 length |
| `Uploads.PdfFallbackScenario` | app.py:45-50 | `report.pdf` (2000 bytes), primary throws, fallback returns `Hello`: shown with the note, 45 bytes, 97.75% smaller |
| `Uploads.SpreadsheetScenario` | app.py:45-57 | `data.xlsx`, primary throws: no fallback, fails with the no-content message and is reported unreadable |

## Left out

- The Streamlit page: configuration, uploader widget and its extension filter, spinner, tabs, text area, download buttons, success/info/error messages, and the pandas table. A report keeps only the values they show.
- The download file names built with `os.path.splitext` (app.py:115-129). The edge cases of that library call are not visible.
- MarkItDown and pdfminer internals. Each call is an opaque `Outcome` given as input, including the case where `text_content` is missing, which the code also sees as a throw.
- Real file I/O. The file system is a set of existing paths; file contents are not modelled, and a failing `os.remove` in the `finally` is not modelled.
- Float arithmetic and the `.2f`/`.1f` formatting. Reduction and unit selection are exact over `real`.
- The operator log written by `print` in `main`.
- Text.LowerChar: lowers ASCII letters only, where Python lowers all of Unicode. No non-ASCII character lowers to `.`, `p`, `d` or `f`, so the `.pdf` test decides the same.
- Text.Utf8Length: has no error case. Dafny characters are Unicode scalar values, so the encoding failure Python raises for lone surrogates cannot arise.
