# pos energy blueprint: leaderboard, submission validator and loop sizing, in Dafny

This project models the parts of the pos energy-blueprint experiment repository that decide something. Everything that only talks to the testbed, GitHub or the disk is left out. There are three such parts.

- **Leaderboard index** (`scripts/build_leaderboard_index.py`).
  - Crawls `submission/<user>/<run>` over given directory listings, keeping directories only.
  - Drops runs whose manifest is empty.
  - Turns each remaining manifest into the canonical leaderboard row: names from a fallback chain, a never-empty CPU label, socket totals, the "HT off" badge, metrics passed through, and four plot slots in fixed order.
- **Submission validator** (`scripts/validate_submission.py`).
  - The username and run-id patterns, including Python's `$`, which also admits one trailing newline.
  - The manifest schema, written as explicit predicates over a JSON value.
  - The folder-name checks and the inclusive 5 MiB PNG bound.
  - The optional hardware description.
  - The scan of the submission tree, and the verdict of `main`, which stops at the first failing run and, within a run, at the first failing check.
- **Loop sizing in the two experiment drivers** (`experiment/experiment.py`, `experiment.py`).
  - Per-socket core and thread totals, where a socket with no thread count falls back to its cores.
  - The two different `make_series`: one clamps to at least 1, the other does not.
  - The hyper-threading loop size, and the loop-dimension choice with its `--loop-max` cap.
  - Order-preserving de-duplication of boot parameters, and the space-joined boot-parameter string.

Modules:
- `Wrappers`: `Option`.
- `Lists`: the "for each entry, append what it contributes" shape shared by the crawl, the index loop and the scan, with its append and membership lemmas.
- `Text`: Python's `strip`, ASCII `lower`, `endswith`, the last path segment, `" ".join` and `split(" ")`.
- `Layout`: file names and defaults shared by several scripts.
- `Topology`: `sum_processor_counts` and `range(1, n + 1)`, shared by both drivers.
- `Leaderboard`, `Submission`, `HtExperiment` (`experiment/experiment.py`) and `LoopExperiment` (`experiment.py`).

Each loop of the source is a method proved against a specification: mostly a recursive function, `ImageSlots` (a sequence comprehension) for `FillImages`, and quantified postconditions for the loop of `ValidateSubmissions`. The properties are proved about those specifications. Rows marked "no contract of its own" are specification functions; the lemmas they name characterise them.

## Model

| member | source | states |
|---|---|---|
| Text.Strip | scripts/build_leaderboard_index.py:90-91 | the result is the slice of the input between the two cut points, everything cut at either end is whitespace, and the result neither starts nor ends with whitespace |
| Text.StripEmptyIff | scripts/build_leaderboard_index.py:90-91 | stripping gives "" exactly when the text is all whitespace |
| Text.LastSegment | scripts/build_leaderboard_index.py:122 | `split("/")[-1]` is a slash-free suffix of the path, preceded by a slash unless it is the whole path |
| Text.LastSegmentOfChild | scripts/build_leaderboard_index.py:122 | the last segment of `parent/name` is `name` when the name has no slash |
| Text.Join | experiment.py:172 | no contract of its own: `" ".join`, characterised by `Text.JoinSplit` and `Text.SplitJoin` |
| Text.Split | experiment.py:172 | Python's `str.split(" ")`, which the source never calls; it exists only to state the join's round trip. Splitting gives at least one piece, none containing a space |
| Text.JoinSplit | experiment.py:172 | joining the pieces of a split gives back the text |
| Text.SplitJoin | experiment.py:172 | splitting a join of one or more space-free pieces gives back those pieces |
| Topology.SumProcessorCounts | experiment/experiment.py:47-55 | the loop's total is the sum over sockets of each socket's count; a missing processor list gives 0 |
| Topology.SocketCount | experiment/experiment.py:51-54 | no contract of its own: one socket's `int(val or 0)`, with threads falling back to cores when absent; see `Topology.ThreadsFallBackToCores` |
| Topology.Total | experiment/experiment.py:47-55 | no contract of its own: the specification `SumProcessorCounts` is proved against; see `Topology.TotalAppend` and `Topology.TotalNonNegative` |
| Topology.TotalAppend | experiment/experiment.py:50-54 | the total over two socket lists is the sum of their totals |
| Topology.TotalNonNegative | experiment/experiment.py:47-55 | with no negative counts the total is never negative |
| Topology.ThreadsFallBackToCores | experiment/experiment.py:52-53 | when no socket reports threads, the thread total equals the core total |
| Topology.OneTo | experiment.py:60-62 | `range(1, n + 1)` has length max(0, n) and element i is i + 1, so it is empty for n ≤ 0 |
| Leaderboard.ListRuns | scripts/build_leaderboard_index.py:38-51 | the nested loops produce exactly the crawl of the root listing |
| Leaderboard.Crawl | scripts/build_leaderboard_index.py:38-51 | no contract of its own: the two-level crawl; characterised by `Leaderboard.CrawlMembership` and `Leaderboard.CrawlAppend` |
| Leaderboard.ListUserRuns | scripts/build_leaderboard_index.py:45-50 | the inner loop produces exactly the run directories of one user directory, in listing order |
| Leaderboard.RunsOfUserMembership | scripts/build_leaderboard_index.py:45-50 | a run is listed for a user exactly when some directory entry of the user's listing produced it |
| Leaderboard.CrawlMembership | scripts/build_leaderboard_index.py:41-50 | a run is in the crawl exactly when a user directory i and a run directory j under it produced it, with path `root/user/run` |
| Leaderboard.CrawlAppend | scripts/build_leaderboard_index.py:41-50 | the crawl of two user listings is the first crawl followed by the second, so listing order is kept |
| Leaderboard.CrawledRunLastSegment | scripts/build_leaderboard_index.py:44-49 | the last segment of a crawled run's path is its run folder's name |
| Leaderboard.FirstNonEmpty | scripts/build_leaderboard_index.py:79-82 | an `a or b or … or fallback` chain gives the first present non-empty candidate, else the fallback, and is non-empty whenever the fallback is |
| Leaderboard.UserOf | scripts/build_leaderboard_index.py:79 | no contract of its own: `username or run["user"]`, an instance of `Leaderboard.FirstNonEmpty` |
| Leaderboard.DisplayNameOf | scripts/build_leaderboard_index.py:80-81 | no contract of its own: `display_name or name or alternateName or user`, an instance of `Leaderboard.FirstNonEmpty`; see `Leaderboard.NoAuthorNames` |
| Leaderboard.HandleOf | scripts/build_leaderboard_index.py:82 | no contract of its own: `handle or alternateName or user`, an instance of `Leaderboard.FirstNonEmpty`; see `Leaderboard.NoAuthorNames` |
| Leaderboard.NoAuthorNames | scripts/build_leaderboard_index.py:78-82 | without an author object, handle and display name are both the user: `username`, else the folder name |
| Leaderboard.CpuLabel | scripts/build_leaderboard_index.py:84-91 | the label is never empty; it is "unknown" when the processor is missing, not a list or empty; otherwise it is socket 0's stripped "vendor model" when that is not blank |
| Leaderboard.CpuLabelFromFirstSocket | scripts/build_leaderboard_index.py:89-91 | sockets after the first never change the label |
| Leaderboard.CpuLabelUnknownIff | scripts/build_leaderboard_index.py:84-91 | the label is "unknown" exactly when there is no socket 0, its vendor and model are blank, or they spell "unknown"; it never starts or ends with whitespace |
| Leaderboard.HtBadge | scripts/build_leaderboard_index.py:96-99 | the badge is " (HT off)" exactly for the boolean `false`, and "" otherwise |
| Leaderboard.RowTotal | scripts/build_leaderboard_index.py:92-94 | no contract of its own: the leaderboard's per-socket sum without the thread fallback; see `Leaderboard.RowCoresMatchDrivers` and `Leaderboard.RowThreadsGap` |
| Leaderboard.RowCoresMatchDrivers | scripts/build_leaderboard_index.py:92-93 | the row's core total equals the drivers' core total |
| Leaderboard.RowThreadsGap | scripts/build_leaderboard_index.py:92-94 | the drivers' thread total exceeds the row's by the cores of the sockets that report no thread count, since the row has no fallback |
| Leaderboard.RowTotalNonNegative | scripts/build_leaderboard_index.py:92-94 | with no negative counts, the row totals are never negative |
| Leaderboard.PngIndexLookup | scripts/build_leaderboard_index.py:114-117 | a lowercased name is indexed exactly when some file entry has it and ends in ".png" case-insensitively; the last such entry's URL wins |
| Leaderboard.PngIndex | scripts/build_leaderboard_index.py:114-117 | no contract of its own: `by_lower`; characterised by `Leaderboard.PngIndexLookup` |
| Leaderboard.ImageSlots | scripts/build_leaderboard_index.py:118-119 | no contract of its own: the four image slots; characterised by `Leaderboard.ImageSlotContents` |
| Leaderboard.ImageSlotContents | scripts/build_leaderboard_index.py:106-119 | there are four slots; a plot with no matching file gets "", otherwise the URL of the last matching file |
| Leaderboard.Summary | scripts/build_leaderboard_index.py:75-138 | a row always has four image slots, a non-empty CPU label, the badge exactly for `false`, non-empty user names for a named folder, and no metrics when the manifest has none; `node`, `created`, `zenodo` and the two affiliation fields are "" when the key is absent and null exactly when the manifest's value is null |
| Leaderboard.CopyField | scripts/build_leaderboard_index.py:125-137 | `.get(key, "")` gives "" only for an absent key, copies a null as null, and copies a string as it is |
| Leaderboard.SocketTotals | scripts/build_leaderboard_index.py:86-94 | the accumulation loop computes the row's core and thread totals |
| Leaderboard.IndexPngs | scripts/build_leaderboard_index.py:114-117 | the `by_lower` loop builds the index of PNG entries |
| Leaderboard.FillImages | scripts/build_leaderboard_index.py:112-119 | the append loop fills the four slots in plot order |
| Leaderboard.Summarize | scripts/build_leaderboard_index.py:75-138 | the imperative summary equals the row specification |
| Leaderboard.MetricsPassThrough | scripts/build_leaderboard_index.py:101-104 | the three metric values are copied unchanged |
| Leaderboard.RowIdOfCrawledRun | scripts/build_leaderboard_index.py:122 | the row id is `run_id` when non-empty, otherwise the run folder's name |
| Leaderboard.BuildIndex | scripts/build_leaderboard_index.py:141-149 | `main` yields one summary per crawled run with a non-empty manifest, in crawl order |
| Leaderboard.IndexRows | scripts/build_leaderboard_index.py:145-149 | no contract of its own: the rows of `main`'s loop; characterised by `Leaderboard.IndexRowsLength`, `Leaderboard.IndexRowsFromRuns` and `Leaderboard.IndexRowsKeepRun` |
| Leaderboard.IndexRowsLength | scripts/build_leaderboard_index.py:145-149 | there are never more rows than runs, and exactly as many when every run has a manifest |
| Leaderboard.IndexRowsAppend | scripts/build_leaderboard_index.py:145-149 | rows of two run lists are the rows of each in order, so relative order is kept |
| Leaderboard.IndexRowsFromRuns | scripts/build_leaderboard_index.py:145-149 | every row is the summary of some run that has a manifest |
| Leaderboard.IndexRowsKeepRun | scripts/build_leaderboard_index.py:145-149 | conversely, every run with a manifest contributes its summary, placed between the rows of the runs before it and those after it |
| Submission.Child | scripts/validate_submission.py:126-130 | a lookup by name yields a child with that name, and none only when no child has it |
| Submission.UserPatternMatches | scripts/validate_submission.py:26 | no contract of its own: `RE_USER.match`; characterised by `Submission.UsernameShape` and `Submission.TrailingNewlineAccepted` |
| Submission.RunPatternMatches | scripts/validate_submission.py:27 | no contract of its own: `RE_RUN.match`; characterised by `Submission.RunIdShape` and `Submission.TrailingNewlineAccepted` |
| Submission.UsernameShape | scripts/validate_submission.py:26 | a username is accepted exactly when it is 1–40 allowed characters, possibly followed by one newline; an accepted one never holds a slash |
| Submission.RunIdShape | scripts/validate_submission.py:27 | a run id is accepted exactly when it is 1–80 characters from the wider set, possibly followed by one newline; an accepted one never holds a slash |
| Submission.TrailingNewlineAccepted | scripts/validate_submission.py:26-27 | `$` lets every acceptable username or run id through with one trailing newline, and never with two |
| Submission.SchemaOk | scripts/validate_submission.py:29-48 | no contract of its own: `MANIFEST_SCHEMA` as a predicate; see `Submission.SchemaIgnoresExtraKeys` |
| Submission.ManifestFailure | scripts/validate_submission.py:69-91 | `validate_manifest` followed by the folder-name comparisons of lines 120-123: a missing manifest is reported exactly when there is no `manifest.json`, and only manifest reasons are ever reported |
| Submission.PngFailure | scripts/validate_submission.py:56-66 | a plot passes exactly when it is a file of at most 5 MiB that verifies as an image; a failure is one of missing, too large or invalid, for that plot |
| Submission.SchemaIgnoresExtraKeys | scripts/validate_submission.py:29-48 | adding or changing a key the schema does not name never changes the schema verdict |
| Submission.FirstDir | scripts/validate_submission.py:135-137 | `None` exactly when no entry is a directory; otherwise the first entry that is a directory |
| Submission.HardwareFailure | scripts/validate_submission.py:133-143 | no contract of its own: the optional hardware check; characterised by `Submission.HardwareFailureIff` |
| Submission.CheckRun | scripts/validate_submission.py:116-143 | no contract of its own: the checks of one run in order; characterised by `Submission.RunAcceptedIff`, `Submission.ManifestCheckedFirst` and `Submission.ValidateSubmissions` |
| Submission.HardwareFailureIff | scripts/validate_submission.py:133-143 | the hardware check fails exactly for a `config` that is a file, or when the first directory under `config` holds a `hardware.json` that does not read as JSON; it fails with no other reason |
| Submission.FirstPngFailure | scripts/validate_submission.py:127-130 | no contract of its own: the four `validate_png` calls in fixed order, stopping at the first failure; characterised by `Submission.FirstPngFailureNoneIff` and `Submission.FirstPngFailureIsFirst` |
| Submission.FirstPngFailureNoneIff | scripts/validate_submission.py:56-66 | no plot fails exactly when every plot exists as a file of at most 5 MiB that verifies as an image |
| Submission.FirstPngFailureIsFirst | scripts/validate_submission.py:127-130 | a plot failure names the first failing plot in order, all earlier plots having passed |
| Submission.ManifestCheckedFirst | scripts/validate_submission.py:116-119 | a run without a manifest is rejected for that, whatever else it holds |
| Submission.RunAcceptedIff | scripts/validate_submission.py:116-143 | a run passes exactly when the manifest parses, fits the schema and both patterns, and names its own folders; all four plots are good; and the hardware check passes (no `config` file, any hardware description parses) |
| Submission.PngSizeBound | scripts/validate_submission.py:57-61 | exactly 5 MiB passes; one byte more fails as too large, whatever the image |
| Submission.ScanSubmissions | scripts/validate_submission.py:94-105 | the nested loops produce exactly the scan of the tree |
| Submission.Scan | scripts/validate_submission.py:94-105 | no contract of its own: `scan_submissions`; characterised by `Submission.ScanMembership` |
| Submission.ListRunDirs | scripts/validate_submission.py:102-104 | the inner loop produces exactly the run directories of one user directory, in listing order |
| Submission.RunsInMembership | scripts/validate_submission.py:102-104 | a run is found under a user exactly when it comes from a directory entry of that user |
| Submission.ScanAllMembership | scripts/validate_submission.py:98-104 | a triple is found exactly when a user directory and a run directory under it produced it |
| Submission.ScanMembership | scripts/validate_submission.py:94-105 | a missing root gives nothing; otherwise as the previous row |
| Submission.ValidateSubmissions | scripts/validate_submission.py:108-146 | a `submission` that is a file ends in the `iterdir()` error; otherwise nothing to validate exactly when the scan is empty, all valid exactly when every found run passes, and a rejection names the first failing run and its first failure |
| HtExperiment.MakeSeries | experiment/experiment.py:68-71 | the series is never empty, element i is i + 1, its length is n for n ≥ 1, and it is [1] for a missing value or n < 1 |
| HtExperiment.MakeSeriesMatchesPlainIff | experiment/experiment.py:68-71 | the clamped series equals the unclamped `range(1, n + 1)` exactly when n ≥ 1 |
| HtExperiment.LoopSize | experiment/experiment.py:217 | no contract of its own: `threads if enable_hyperthreading and threads else cores`; see `HtExperiment.LoopVariable` |
| HtExperiment.LoopVariable | experiment/experiment.py:216-220 | the loop runs over threads when hyper-threading is asked for and threads ≠ 0, otherwise over cores, warning and falling back when threads are 0; the series is `make_series` of that count, so a count below 1 (a node with 0 cores) gives `[1]` |
| HtExperiment.HtOnNodeWithoutThreadCounts | experiment/experiment.py:216-220 | on a node whose sockets report no thread counts, asking for hyper-threading changes nothing |
| HtExperiment.DedupBootParams | experiment/experiment.py:257-263 | the `seen`-set loop computes the de-duplication |
| HtExperiment.Dedup | experiment/experiment.py:257-263 | no contract of its own: order-preserving de-duplication; characterised by `HtExperiment.DedupElements`, `HtExperiment.DedupOrder` and `HtExperiment.DedupOfDistinct` |
| HtExperiment.DedupElements | experiment/experiment.py:257-263 | the output has no duplicates and holds exactly the input's values |
| HtExperiment.IndexOf | experiment/experiment.py:261 | the first-occurrence index of a present value |
| HtExperiment.IndexOfUnique | experiment/experiment.py:261 | the first-occurrence index is unique |
| HtExperiment.DedupOrder | experiment/experiment.py:257-263 | output values are in the input, ordered by first occurrence |
| HtExperiment.DedupOfDistinct | experiment/experiment.py:257-263 | a list without duplicates is returned unchanged |
| HtExperiment.DedupIdempotent | experiment/experiment.py:257-263 | de-duplicating twice equals de-duplicating once |
| Layout.BootParamArgs | experiment/experiment.py:159 | no contract of its own: argparse's `append` action on the default `["iommu=pt"]` (the same at experiment.py:134), so given values follow the default; characterised by `HtExperiment.DefaultBootParamFirst` and `LoopExperiment.BootParamsRoundTrip` |
| HtExperiment.DefaultBootParamFirst | experiment/experiment.py:257-263 | the default `iommu=pt` always comes first in the applied parameters |
| LoopExperiment.LoopCount | experiment.py:156-158 | a `loop_max` of None or 0 leaves the selected count; any other value caps it, giving the smaller of the two |
| LoopExperiment.Selected | experiment.py:156 | no contract of its own: `threads if loop_dimension == "threads" else cores`; see `LoopExperiment.LoopCount` |
| LoopExperiment.LoopSeries | experiment.py:156-159 | the series counts 1, 2, …; its length is the count when that is ≥ 0; it is empty when the count is ≤ 0; and it never exceeds a positive `loop_max` |
| LoopExperiment.DriversDifferOnZeroThreads | experiment.py:156-159 | with 0 threads this driver's thread loop is empty, while the other driver falls back to the cores |
| LoopExperiment.JoinedBootParams | experiment.py:172 | no contract of its own: the joined boot-parameter string; characterised by `LoopExperiment.BootParamsRoundTrip` |
| LoopExperiment.BootParamsRoundTrip | experiment.py:172 | the joined string splits back into the default followed by the given parameters, duplicates kept, when none holds a space |

## Left out

- Testbed calls (`pos.*`, `restapi`) are left out: allocation, imaging, reboot, script runs, metadata, plotting, upload and submission. Core and thread counts and the boot parameters enter as parameters.
- `argparse`, logging, YAML/JSON variable-file loading, token reading and the `set_variables_*` / `run_infile` wrappers are I/O.
- The preflight checks of `experiment/experiment.py` are I/O. They are the missing global-variables file and scripts, which return 2.
- GitHub access is left out: `gh_contents`, `download_url_for`, the HTTP part of `read_manifest`, and the write of `docs/leaderboard.json`. Directory listings are a map from path to entries; a path with no listing reads as `[]`, as a 404 of `gh_contents` does (this also covers a missing manifest, whose contents lookup gives no download URL). Other HTTP errors of `gh_contents`, and every HTTP error of the manifest download itself, where `raise_for_status` raises on a 404 too, end the script and are not modelled.
- Manifests are a map from manifest path to a parsed record. A path that is not a key is an empty manifest, whether missing, without a download URL, not JSON or `{}`.
- A manifest that parses to a non-empty JSON value other than an object (a list, a string, a non-zero number or `true`) passes the emptiness test of `main` and then makes `summarize` crash at `manifest.get`, ending the script. Manifests are records here, so this case is not modelled; an empty list, `""`, `0`, `false` or `null` is skipped like `{}`.
- Leaderboard manifest fields are typed. A socket that is `null`, a `null` vendor or model, counts that are not integers, and a non-empty `metrics` or `author` that is not an object make the source crash or misbehave, and are not modelled. A `null` or empty `author` or `metrics` is modelled: both read as `{}`.
- Leaderboard.Summary: the copied fields `node`, `created`, `zenodo_html` and the two affiliations are modelled as absent, null or a string; a number or other JSON value there, which the source copies as it is, is not modelled.
- Metric values are opaque `real`s that are only copied. Floating-point behaviour is not modelled.
- `jsonschema` is replaced by explicit predicates for this one schema.
- Parsing is replaced by per-file oracles: JSON text parsing becomes an optional parsed value on each file, and PIL's `Image.verify` becomes a boolean on each file.
- A directory that stands where a file is expected is modelled by name. A directory named `manifest.json` or `hardware.json` fails as "not valid JSON". One at a plot name fails as an invalid image.
- `iterdir()` order is taken to be the order of the given children. The source gives no order.
- The `::error::` messages and `print` output are not modelled. A failure is the `Reason` value.
- `str.lower` is modelled for ASCII letters only. Non-ASCII case mapping is not modelled.
- The RO-Crate description and keyword text, Zenodo publishing, and the browser page's filtering, sorting and grouping are presentation or not part of this model.
- The patterns follow Python's `re.match` with `$` exactly, so one trailing newline is accepted.
