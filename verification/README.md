# Gitleaks context extraction, modelled in Dafny

The wrapper `gitleaks.py` downloads the gitleaks secret scanner, runs it over
a repository and then enriches every finding of the scanner's JSON report
with a `context` field: the lines of code around the finding, read from the
working tree (when the finding has no commit) or from the commit the finding
was made in (`git show commit:path`), padded by three lines on each side and
clamped to the file. This project models that context-extraction engine and
the small decision rules around it, and proves what they promise.

Modules:

- `Wrappers` (wrappers.dfy): `Option`, for `None` and missing keys.
- `PyStr` (pystr.dfy): the Python string operations the wrapper uses:
  `str.splitlines()` with Python's full set of line boundaries,
  `str.lower()`, `sub in s`, `startswith`, `endswith`.
- `Extraction` (extraction.dfy): findings, the two content sources, the
  context window, Python's slice semantics and `extract_context_for_finding`.
- `Enrichment` (enrichment.dfy): the in-place loop that sets
  `finding["context"]`, and the decision to write an output file.
- `Platform` (platform.dfy): `select_asset_for_platform`.
- `Runner` (runner.dfy): the scanner's argument list, its accepted exit
  codes, the automatic `--no-git`, and the archive kind chosen by URL suffix.

The file system and git are a `Repository` value: `workTree` maps each path
that can be opened and strictly decoded as UTF-8 to its text, and `history`
maps each `(commit, path)` pair that git resolves to its lossily decoded
text. A path or pair outside these maps is content that cannot be read.
The scanner process is a function parameter from argument list and working
directory to exit code.

Boundary behaviour of the code that the model keeps:

- A valid range can give an inverted window. When a finding starts five or
  more lines past the end of the file (`StartLine >= |lines| + 5`), the
  window start exceeds its end, and the slice is empty. At
  `StartLine = |lines| + 4` the window is `[|lines|, |lines|)`, also empty.
  `WindowOrdered` states when the window is ordered.
- A working-tree file is opened as strict UTF-8, so a file that does not
  decode raises, is caught, and gives no context. This is why `workTree`
  holds only files that decode; history is decoded lossily and never fails
  on bad bytes.
- A negative `context_end` is read by Python's slice as counting from the
  end of the file (see Findings below).

## Model

| member | source | states |
|---|---|---|
| PyStr.SplitLines | gitleaks.py:93 | every line is free of line boundaries; the result is empty exactly when the text is empty |
| PyStr.SplitJoin | gitleaks.py:93 | splitting text written one line per "\n" gives back exactly those lines |
| PyStr.JoinSplit | gitleaks.py:105 | text using only "\n" as boundary and ending in one is rebuilt exactly from its split lines |
| PyStr.Lower | gitleaks.py:48 | the lower-cased name has the same length, and each character is its ASCII lower-case form |
| PyStr.LowerIsLower | gitleaks.py:48 | the lower-cased name holds no ASCII capital, and lower-casing twice is the same as once |
| PyStr.Contains | gitleaks.py:49 | `sub in s` holds whenever `sub` is a prefix of `s`, and only when `sub` is no longer than `s` |
| PyStr.EndsWith | gitleaks.py:137-151 | `s.endswith(suffix)` holds exactly when the last `|suffix|` characters of `s` are those of `suffix`, index by index |
| PyStr.ContainsIffOccurs | gitleaks.py:49 | the substring test `sub in s` holds exactly when `sub` occurs at some index of `s` |
| Extraction.IsFalsy | gitleaks.py:88 | `not commit` holds exactly when the commit is missing or the empty string |
| Extraction.ReadLines | gitleaks.py:88-108 | a missing or empty commit reads the working tree, any other commit reads history; lines exist exactly when the file (or commit:path) is readable, and they are its split lines |
| Extraction.ContextWindow | gitleaks.py:109-110 | the window start is never negative and the end never exceeds the line count; each bound is either the clamp or the padded finding bound |
| Extraction.WindowOrdered | gitleaks.py:109-110 | for a valid range that starts at most four lines past the end of the file (`StartLine <= total + 4`), the window is not inverted |
| Extraction.SliceIndex | gitleaks.py:111 | Python's reading of a slice index: in-range kept, too large clamped to the length, negative counted from the end, too negative clamped to 0 |
| Extraction.PySlice | gitleaks.py:111 | `s[i:j]` is the contiguous run of `s` from the normalised `i` up to the normalised `j`, never out of range, empty exactly when the normalised `j` does not exceed the normalised `i` |
| Extraction.ContextAsWritten | gitleaks.py:109-111 | the slice as the source writes it: a contiguous run of the file's lines from the window start; for a non-negative window end it has `context_end - context_start` lines, and is empty exactly when the window is inverted; for a negative end it runs up to that many lines before the end of the file, and is empty when that point is at or before the window start |
| Extraction.Context | gitleaks.py:109-111 | the context is a contiguous run of the file's lines starting at the window start, no longer than the file |
| Extraction.ContextIsNearLines | gitleaks.py:109-111 | a line of the file is in the context if and only if it lies within three lines of the finding's range |
| Extraction.ContextEmptyIff | gitleaks.py:109-111 | the context is empty exactly when no line of the file is near the finding |
| Extraction.ContextEmptyCases | gitleaks.py:109-111 | a window with `context_start >= context_end` gives an empty context, not an error; for the slice as written this holds whenever `context_end` is not negative |
| Extraction.WindowEmptyCases | gitleaks.py:109-110 | an empty file, or a start five or more lines past the end of the file, gives a window with `context_start >= context_end` |
| Extraction.ContextLengthBound | gitleaks.py:109-111 | for `1 <= StartLine <= EndLine` the context has at most `(EndLine - StartLine + 1) + 6` lines |
| Extraction.ContextHoldsFinding | gitleaks.py:109-111 | when the range lies inside the file, the finding's own lines appear contiguously in its context |
| Extraction.ContextAsWrittenAgrees | gitleaks.py:109-111 | for `EndLine >= -3` the slice as written and the clamped slice are equal |
| Extraction.ContextAsWrittenWrapsNegativeEnd | gitleaks.py:110-111 | as written, lines 1 to -5 of a ten-line file give its first eight lines; the clamped slice gives none |
| Extraction.ContextExamples | gitleaks.py:109-111 | in the ten-line file "a".."j", lines 5-6 give "b".."i", line 1 gives "a".."d", lines 9-10 give "f".."j" |
| Extraction.ExtractContext | gitleaks.py:82-113 | extraction fails exactly when the content source fails, and otherwise returns the context of the finding's range in the lines read, which for every `EndLine >= -3` is the source's own slice |
| Extraction.ExtractFailsWhenUnreadable | gitleaks.py:94-108 | a missing working-tree file, or an unresolvable commit:path, gives no context value |
| Extraction.ExtractIgnoresContext | gitleaks.py:83-86 | extraction reads only file, commit and line range, so an existing context does not affect it |
| Enrichment.StoredContext | gitleaks.py:183 | a failed extraction is stored as [], a successful one as the extracted slice |
| Enrichment.Enriched | gitleaks.py:183 | the finding gets its context key and keeps file, commit, line range and every other key |
| Enrichment.EnrichedAll | gitleaks.py:181-183 | the enriched list has the same length and each entry is the enrichment of the input at the same index |
| Enrichment.Enrich | gitleaks.py:181-183 | the loop, in place over the list, leaves exactly the enriched list |
| Enrichment.EnrichedAllKeepsFindings | gitleaks.py:181-183 | count and order are kept, every finding has a context, and no other field of any finding changes |
| Enrichment.UnreadableGetsEmptyContext | gitleaks.py:182-183 | an unreadable finding is stored with context [] and the run goes on |
| Enrichment.EnrichedAllAppend | gitleaks.py:181-183 | findings are enriched independently: enriching a concatenation concatenates the enrichments |
| Enrichment.EnrichedAllIdempotent | gitleaks.py:181-183 | enriching an already enriched list changes nothing |
| Enrichment.ReportFindings | gitleaks.py:173-178 | a JSON decode error, or a falsy JSON value, is handled as an empty finding list; a decoded list is used as it is |
| Enrichment.ProcessReport | gitleaks.py:172-187 | no output exactly when there are no findings (including after a decode error or a falsy report); otherwise the output is the enriched list |
| Platform.Assets | gitleaks.py:46 | a missing `assets` key gives the empty list, otherwise the release's asset list as it is |
| Platform.OsKey | gitleaks.py:37-45 | prefix "linux" gives linux, exactly "darwin" gives darwin, prefix "win" gives windows, and anything else is unsupported, in both directions |
| Platform.SelectAsset | gitleaks.py:46-53 | the selected asset is the first in list order whose lower-cased name contains the OS key and one of amd64/x86_64/x64; no match, or an unsupported platform, is an error |
| Platform.Matches | gitleaks.py:48-49 | an asset matches exactly when its lower-cased name contains the OS key at some index and contains "amd64", "x86_64" or "x64" at some index |
| Platform.MatchesIgnoresCase | gitleaks.py:48-49 | two names that agree once lower-cased match the same keys, and a name matches exactly when its lower-cased form does |
| Platform.MatchesTypicalName | gitleaks.py:49 | a lower-case name holding the OS key followed later by "amd64" matches, whatever surrounds them |
| Runner.EffectiveNoGit | gitleaks.py:127-129 | without a `.git` directory `--no-git` is forced on; with one it is as requested |
| Runner.BuildCommand | gitleaks.py:66-69 | the argument list is exactly the scanner path, "detect", "--no-git" exactly when asked, then "-f json -r" and the report path (six or seven entries) |
| Runner.ExitRule | gitleaks.py:74-79 | exit codes 0 and 1 are success; for any other code the wrapper calls `sys.exit` with that same, non-zero code |
| Runner.RunGitleaks | gitleaks.py:65-80 | the scanner is run on exactly that argument list, and its exit code decides success by the exit-code rule |
| Runner.ArchiveKindOf | gitleaks.py:137-166 | ".zip" is unpacked as zip, otherwise ".tar.gz" or ".tgz" as gzip tar, anything else is used as the binary, in both directions |
| Runner.ArchiveKindBySuffix | gitleaks.py:137-151 | the three suffixes select their archive kind whatever name precedes them |

## Findings

| source | as written | input that shows it | evidently intended | confidence | as-written member | corrected member |
|---|---|---|---|---|---|---|
| gitleaks.py:110-111 | `context_end = min(len(lines), end_line + 3)` is negative for `EndLine <= -4`, and the slice `lines[context_start:context_end]` then counts it from the end of the file | a ten-line file with `StartLine = 1`, `EndLine = -5` gives the first eight lines as context | the `max`/`min` clamping keeps the window end inside the file, so the slice never counts from the end; for these ranges the window is then inverted and the context empty | medium, not executed (the scanner does not emit negative line numbers) | Extraction.ContextAsWrittenWrapsNegativeEnd | Extraction.Context |

`Extraction.ContextAsWritten` is the slice exactly as written. `Extraction.Context`
also clamps the window end at 0, and the rest of the model uses it.
`Extraction.ContextIsNearLines` is proved about it, and
`Extraction.ContextAsWrittenAgrees` shows that the two agree for every
`EndLine >= -3`.

## Left out

- Fetching the latest release and downloading the asset (`get_latest_gitleaks_release`, `download_file`): network I/O.
- Running the scanner and `git show` as processes: the scanner is the `exec` parameter of `Runner.RunGitleaks`; `git show` is the `history` map.
- Reading files and decoding UTF-8 (strict for the working tree, lossy for history): the `Repository` maps hold the decoded text.
- Extraction.ExtractContext: slices with the end of the window clamped at 0, so for `EndLine <= -4` it returns the empty context where the source's slice counts from the end of the file (see Findings); for every `EndLine >= -3` it returns the source's slice.
- Malformed findings and reports: the model's `Finding` always has a string `File` and integer `StartLine`/`EndLine`, and a report is a list of findings, a falsy value or a decode error. In the source, a finding without `File` and without a commit raises in `os.path.join`; one without `File` but with a commit asks git for the path `None`, which normally fails and gives `[]`. A missing or non-integer line number raises only when the content was read; an unreadable finding returns before line 109. A truthy report that is not a list of objects raises.
- A missing `git` executable raises an exception that the historical branch does not catch.
- Zip and tar extraction, the `os.walk` search for the binary, `chmod`, the temporary directory and its cleanup (`--no-cleanup`): file-system behaviour.
- JSON parsing and writing, the output file name and `argparse`: library wrappers. The report is a `Report` value and the output an `Option`.
- Logging and the `DEBUG` switch: diagnostics with no effect on behaviour.
- The check for a `.git` directory: it is the `hasGitDir` input of `Runner.EffectiveNoGit`.
- A `name` key holding JSON `null` (where `.lower()` raises) and a missing download URL (where the download fails): the model carries the URL as an `Option`.
- Runner.ExitRule: gives the value passed to `sys.exit`; the operating system reduces the exit status modulo 256, so a negative (signal) return code such as -9 is reported as 247, not as itself.
- PyStr.Lower: lower-cases only ASCII letters; Python's `str.lower()` also maps non-ASCII letters.
