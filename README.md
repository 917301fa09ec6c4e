# Censored Planet analysis: scan flattening and routeview mirroring, in Dafny

This project models the decision logic of two parts of the censoredplanet-analysis
repository and proves properties of it.

- **Scan flattening** (`pipeline/flatten_json.py`). `flatten_measurement` turns one
  line of a scan file into one flat table row per entry of the record's `Results`.
  The rows have the thirteen columns of `bigquery_schema`. `between_dates` decides
  whether a scan file's path falls in an inclusive date window. Module `FlattenJson`,
  file `flatten_json.dfy`.
- **Routeview mirroring** (`mirror/routeviews/update.py`). `RouteviewUpdater` reads
  the publisher's creation log. It takes the filenames of the recently generated
  routeview files, subtracts those already in the bucket, and transfers each
  remaining file from `<dir>YYYY/MM/<file>` to `<routeview path>/<file>`. Module
  `RouteviewUpdate`, file `routeview_update.dfy`. The updater is a class with
  read-only configuration and a ghost log of what its passes print and store.
- **Python runtime** (`py_runtime.dfy`, module `PyRuntime`). The pieces of Python
  behaviour both files rely on:
  - exceptions, as a `Result` that is a value or a raised exception;
  - clamped slicing `s[i:j]`;
  - `str.split`, with its round trip against joining;
  - ASCII digit strings and their values.

Python exceptions the code does not catch become `Raise(...)` results, with the same
exception kind as the code raises. Where the repository's documented intent and its
code differ, the model follows the code:

- **Incomplete records raise.** `flatten_measurement` catches only `JSONDecodeError`.
  A record that decodes but lacks a key raises `KeyError`, or `TypeError` for a
  wrongly typed value, out of the function. It does not yield an empty list with a
  diagnostic.
- **Top-level keys are read inside the loop.** Every top-level key except `Results`
  is read only inside the loop, so a record with an empty `Results` list yields no
  rows whatever else it lacks.
- **Undated paths raise.** `between_dates` raises `IndexError` for a path without a
  `YYYY-MM-DD` substring, and `ValueError` for one whose first such substring is not
  a real date. It does not answer "not in window".
- **A failed transfer ends the pass.** The remaining new files are not attempted.
- **A filename holding '/' is transferred on every pass.** The creation-log group
  `(.*)` can capture a name such as `sub/x`. It is stored at
  `os.path.join(path, "sub/x")`, but the bucket listing keeps only the base name
  `x`. So `sub/x` never counts as already stored, and every pass transfers it
  again.
- **The docstring record raises.** The record shown in `flatten_measurement`'s
  docstring has only `Success` in its entries. As the code is written, that record
  raises `KeyError('StartTime')`.

## Model

| member | source | states |
|---|---|---|
| PyRuntime.Slice | mirror/routeviews/update.py:114-115 | `s[i:j]` never raises. Its length is the clamped difference, each element is `s[i+k]`, and for `i <= j` it equals `s[min(i,len):min(j,len)]` |
| PyRuntime.Split | mirror/routeviews/update.py:65 | `str.split` gives at least one piece, no piece contains the separator, and joining the pieces gives back the input |
| PyRuntime.SplitTerminated | mirror/routeviews/update.py:65 | Splitting newline-terminated lines followed by an unterminated tail gives the lines and then the tail, which `[:-1]` drops |
| FlattenJson.FirstTen | pipeline/flatten_json.py:148 | `v[:10]` succeeds exactly on a str or a list; on a str or list it is the first `min(10, len)` characters or items; anything else raises TypeError |
| FlattenJson.Iterate | pipeline/flatten_json.py:144 | `for result in v` works exactly on a list, a str or a dict; a list yields its own items; anything else raises TypeError |
| FlattenJson.RowDict | pipeline/flatten_json.py:20-34 | The dict appended per entry has exactly the columns of `bigquery_schema` |
| FlattenJson.FlattenRowsMatchSchema | pipeline/flatten_json.py:20-34 | Every row a successful flatten returns, as a dict, has exactly the columns of `bigquery_schema` |
| FlattenJson.BuildRow | pipeline/flatten_json.py:145-159 | The row dict is built exactly when the scan has every top-level key read and the entry is a dict with StartTime, EndTime, Sent, Success and a sliceable StartTime. Then it carries the scan's and the entry's fields, with `date` = StartTime[:10] and `''` for missing Received or Error. Otherwise it raises TypeError or KeyError of a missing required key |
| FlattenJson.Collect | pipeline/flatten_json.py:144-159 | A loop that stops at the first exception succeeds iff every step does. It then returns every value in order; otherwise it raises the first failing step's exception |
| FlattenJson.CollectFirstFailure | pipeline/flatten_json.py:144-159 | When steps before k succeed and step k raises, the whole loop raises step k's exception |
| FlattenJson.Flatten | pipeline/flatten_json.py:138-142 | A line that does not decode yields the empty list |
| FlattenJson.AppendRows | pipeline/flatten_json.py:144-160 | The imperative loop returns what the specification `Collect` over one row attempt per entry returns (proved by loop invariant) |
| FlattenJson.FlattenMeasurement | pipeline/flatten_json.py:119-160 | The method (decode guard, `scan['Results']`, the loop) equals the specification `Flatten` |
| FlattenJson.FlattenRowPerResult | pipeline/flatten_json.py:144-159 | On success, a Results list of n entries yields exactly n rows, the i-th built from the i-th entry |
| FlattenJson.FlattenSharedScanFields | pipeline/flatten_json.py:146-158 | Every row of one record carries the record's Keyword, Server, Retries, Blocked, FailSanity and StatefulBlock |
| FlattenJson.EmptyResultsNoRows | pipeline/flatten_json.py:144-160 | An empty Results list yields no rows, whatever other keys are missing |
| FlattenJson.IncompleteRecordRaises | pipeline/flatten_json.py:144-159 | A decodable record whose scan or first entry lacks a required key raises; it never yields a partial list |
| FlattenJson.MissingResultsRaises | pipeline/flatten_json.py:144 | A record without Results raises KeyError('Results') |
| FlattenJson.CompleteRecordFlattens | pipeline/flatten_json.py:144-160 | A record with every top-level key and complete entries yields one row per entry |
| FlattenJson.DocstringExampleRaises | pipeline/flatten_json.py:123-127 | The docstring's example record raises KeyError('StartTime') |
| FlattenJson.SampleEntryRow | pipeline/flatten_json.py:145-159 | A complete entry without Received and Error gives the row with date '2020-05-11' and '' in both |
| FlattenJson.OneEntryRecordRow | pipeline/flatten_json.py:136-160 | A complete one-entry record flattens to exactly that one row |
| FlattenJson.FirstDateToken | pipeline/flatten_json.py:115 | `re.findall(...)[0]` takes the leftmost `dddd-dd-dd` substring: it is a match and no earlier position matches |
| FlattenJson.FromIsoFormat | pipeline/flatten_json.py:114 | `fromisoformat` on a matched token succeeds iff the spelled date exists (years 1 to 9999, real month and day); the result's ISO form is the token; otherwise ValueError |
| FlattenJson.IsoFormatRoundTrip | pipeline/flatten_json.py:114 | Every date's ISO form is a matching token that parses back to the date |
| FlattenJson.FilenameDate | pipeline/flatten_json.py:114-115 | IndexError exactly when the path has no date-shaped substring; any other exception is ValueError; a date returned is the ISO form of the first such substring |
| FlattenJson.BetweenDates | pipeline/flatten_json.py:102-116 | Defined exactly when the path's date is; then True iff `start <= date <= end` |
| FlattenJson.BetweenDatesOfTokenPath | pipeline/flatten_json.py:114-116 | For every path `prefix + token + suffix` whose first date-shaped substring is `token`, the date is `fromisoformat(token)` and the answer is read from it, or ValueError when the token names no date |
| FlattenJson.BetweenDatesOfDatedPath | pipeline/flatten_json.py:114-116 | A path whose first digit starts a date's ISO form (the text before it holds no digit) is tested on that date |
| FlattenJson.WindowInclusive | pipeline/flatten_json.py:102-116 | Both bounds are inside the window, and a date outside [start, end] is not |
| FlattenJson.DocstringPathInWindow | pipeline/flatten_json.py:106-107 | The docstring's path is dated 2020-05-11, so it is in the window 2020-05-07 .. 2020-05-11 |
| FlattenJson.InvalidDatePathRaises | pipeline/flatten_json.py:114-115 | A path dated 2020-13-01 raises ValueError instead of answering False |
| RouteviewUpdate.CreationLogLines | mirror/routeviews/update.py:65 | The log's lines contain no newline |
| RouteviewUpdate.CreationLogLinesOf | mirror/routeviews/update.py:65 | `split("\n")[:-1]` of newline-terminated lines followed by any newline-free tail is exactly those lines |
| RouteviewUpdate.LastGroupTab | mirror/routeviews/update.py:73 | Finds the greatest tab position that has an earlier tab and is followed by `dddd/dd/`, or shows there is none |
| RouteviewUpdate.ExtractFilename | mirror/routeviews/update.py:73 | The regex lookup raises only IndexError; a found filename is a suffix of the line after at least nine characters |
| RouteviewUpdate.ExtractFilenameMatch | mirror/routeviews/update.py:73 | IndexError exactly when no tab has an earlier tab and `dddd/dd/` after it; otherwise the filename is the rest of the line after the last such tab (greedy matching) |
| RouteviewUpdate.ParseLine | mirror/routeviews/update.py:69-74 | One loop step raises only IndexError (an empty line's `line[0]` or a line without a match) |
| RouteviewUpdate.ParseLines | mirror/routeviews/update.py:67-75 | The loop over the lines raises only IndexError |
| RouteviewUpdate.ParseLinesFilenames | mirror/routeviews/update.py:67-75 | On success, the result holds, in order, the filename of every non-comment line |
| RouteviewUpdate.ParseLinesSucceeds | mirror/routeviews/update.py:67-75 | The loop succeeds iff every line is non-empty and is a comment or has a filename |
| RouteviewUpdate.ParseLinesStopsAtFailure | mirror/routeviews/update.py:67-75 | The first failing line decides the outcome: later lines do not matter |
| RouteviewUpdate.ExtractFromCreatedLine | mirror/routeviews/update.py:70-73 | On a record line `id\ttimestamp\tYYYY/MM/name`, with no tab in the name, the lookup returns exactly the name |
| RouteviewUpdate.ParseRenderedLines | mirror/routeviews/update.py:67-75 | Parsing a sequence of record and comment lines gives the records' filenames in order |
| RouteviewUpdate.ParseRenderedCreationLog | mirror/routeviews/update.py:65-75 | Parsing a rendered creation log (plus any unterminated tail) gives the records' filenames in log order |
| RouteviewUpdate.Basename | mirror/routeviews/update.py:86 | `os.path.basename` contains no '/' and leaves a path without '/' unchanged |
| RouteviewUpdate.PathJoinShape | mirror/routeviews/update.py:121-122 | `os.path.join(a, b)` ends with b; for a relative b it is a, then one '/' unless a is empty or ends with '/', then b; an absolute b is the whole result |
| RouteviewUpdate.BasenameOfJoin | mirror/routeviews/update.py:121-122 | A file stored with `os.path.join(dir, name)` is listed back as `name` when the name has no '/' |
| RouteviewUpdate.CaidaFilesInBucket | mirror/routeviews/update.py:85-87 | The listing gives the base name of every blob, in order |
| RouteviewUpdate.SetOf | mirror/routeviews/update.py:105 | `set(xs)` holds exactly the elements of xs |
| RouteviewUpdate.DiffNewCaidaFiles | mirror/routeviews/update.py:89-106 | A name is new iff it is advertised and not stored; names only in the bucket never appear |
| RouteviewUpdate.DiffExample | mirror/routeviews/update.py:93-95 | The docstring example: ['1','2','3'] less ['2','3','4'] is {'1'} |
| RouteviewUpdate.DiffBounds | mirror/routeviews/update.py:89-106 | Nothing is new when every advertised name is stored; everything advertised is new when nothing is stored |
| RouteviewUpdate.RerunFindsNothingNew | mirror/routeviews/update.py:105-122 | For new names that are non-empty and contain no '/', once every new file is stored under a directory, a second diff over the same advertised names is empty |
| RouteviewUpdate.SlashedNameStaysNew | mirror/routeviews/update.py:73-122 | A name 'sub/x' stored under the routeview path is listed back as 'x', so it is still new on the next pass |
| RouteviewUpdate.DeployedBlobPath | mirror/routeviews/update.py:26-30 | Under the deployed routeview path, which ends with '/', a non-empty name that does not start with '/' is stored at the path followed directly by the name |
| RouteviewUpdate.StoredBlobs | mirror/routeviews/update.py:121-122 | Storing the files adds one blob per file, at `os.path.join(dir, name)` |
| RouteviewUpdate.TransferUrl | mirror/routeviews/update.py:114-117 | The url is the directory url, then `filename[15:19] + "/" + filename[19:21] + "/"`, then the filename |
| RouteviewUpdate.TransferUrlOfRouteviewFile | mirror/routeviews/update.py:112-117 | For a name `routeviews-rv2-YYYYMMDD-...`, slices [15:19] and [19:21] are YYYY and MM, so the url is `<dir>YYYY/MM/<name>` |
| RouteviewUpdate.DocstringTransferUrl | mirror/routeviews/update.py:112-115 | routeviews-rv2-20200719-1200.pfx2as.gz yields year "2020" and month "07" |
| RouteviewUpdate.ShortFilenameUrl | mirror/routeviews/update.py:114-117 | A name of at most 15 characters gives empty year and month: `<dir>//<name>`, with no exception |
| RouteviewUpdate.StoreCountAppend | mirror/routeviews/update.py:134-137 | Counting stores distributes over concatenated event logs |
| RouteviewUpdate.RouteviewUpdater.constructor | mirror/routeviews/update.py:36-54 | The updater keeps its four configuration values and starts with an empty log |
| RouteviewUpdate.RouteviewUpdater.CreationLogUrl | mirror/routeviews/update.py:64 | The creation log's url is the directory url followed by the log's file name, and nothing else |
| RouteviewUpdate.RouteviewUpdater.PassEvents | mirror/routeviews/update.py:134-137 | A pass over n files logs three events per file |
| RouteviewUpdate.RouteviewUpdater.PassStoresEachOnce | mirror/routeviews/update.py:134-137 | In a pass over distinct files, each attempted file is stored exactly once and no other file is stored |
| RouteviewUpdate.RouteviewUpdater.LatestGeneratedRouteviewFiles | mirror/routeviews/update.py:56-75 | The imperative loop returns what the specification `ParseCreationLog` returns: the filenames, or the IndexError of the first bad line |
| RouteviewUpdate.RouteviewUpdater.TransferNewFile | mirror/routeviews/update.py:108-123 | Fetches `<dir>YYYY/MM/<name>`: an unreachable url raises URLError and stores nothing; otherwise exactly that url is stored under `join(path, name)` |
| RouteviewUpdate.RouteviewUpdater.TransferNewFiles | mirror/routeviews/update.py:134-137 | Attempts distinct new files only. On success: every new file, each fetchable, with the log of transferring them in that order. On failure: the last attempted file's url raised, and the log ends with its "transferring" message |
| RouteviewUpdate.RouteviewUpdater.TransferRouteviews | mirror/routeviews/update.py:125-137 | A bad creation log raises before anything is logged. Otherwise "no new files" is logged exactly when the diff is empty, then the new files are transferred as `TransferNewFiles` states |
| RouteviewUpdate.GetFirehookRouteviewUpdater | mirror/routeviews/update.py:140-144 | The factory builds a fresh updater with the deployed bucket, path, directory url and creation-log file |

## Left out

- Reading and writing. These become parameters:
  - the line a scan file yields, as the outcome of `json.loads`;
  - the creation log's text;
  - the names of the bucket's blobs;
  - the set of urls whose fetch or upload fails.

  Beam pipeline wiring, `read_scan_text`, `run`, `gcs.match`/`gcs.open`, `urlopen`,
  the storage client and the bucket object, and the uploaded bytes are not modelled.
- `get_bigquery_schema`: it only copies `bigquery_schema` into Beam's schema objects.
  The schema's contents are modelled as a constant.
- Logging (`logging.warn`) and `pprint` output. The printed progress messages appear
  only as events in the updater's ghost log.
- JSON floating-point numbers. `Json` has integers only.
- Iterating a dict `Results` yields its keys. The model keeps only how many there are:
  each key is a str, and indexing a str with a str raises TypeError in every case.
- Slicing a dict StartTime (`{}[:10]`) is taken to raise TypeError, as up to Python
  3.11. From 3.12 slices are hashable and it raises KeyError.
- `\d` in both regular expressions is taken as the ASCII digits. Python's `re` on str
  also matches other Unicode decimal digits.
- `.decode("utf-8")` of the creation log is not modelled: the log is given as text,
  and a UnicodeDecodeError cannot arise.
- RouteviewUpdate.RouteviewUpdater.TransferNewFile: a failing fetch and a failing
  upload are both modelled as a URLError keyed by the file's url.
- RouteviewUpdate.DiffNewCaidaFiles: returns a set, not `list(diff)`. The list's order
  is Python's set iteration order, which is unspecified. The transfer loop therefore
  picks the next file nondeterministically, and `order` records the order taken.
- RouteviewUpdate.ExtractFilename: its own contract states only the error kind and
  that the result is a suffix of the line. The full greedy-match characterisation is
  the lemma `ExtractFilenameMatch`.
- RouteviewUpdate.PathJoin: it has no contract of its own, because any ensures on it slows the proofs that mention blob paths. The lemma `PathJoinShape` states what it computes.
- RouteviewUpdate.ParseLines: its own contract states only the error kind. What it
  computes is the lemmas `ParseLinesFilenames` and `ParseLinesSucceeds`.
- FlattenJson.RowDict: the contract states the column set. Each column's value is
  stated on the `Row` fields, by `CarriesScanFields` and `CarriesResultFields`.
- `PROJECT_NAME`: it only configures the storage client, which is not modelled.
