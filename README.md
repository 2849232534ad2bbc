# verify-build-artifacts in Dafny

A model of the core of `verify-build-artifacts` (the "groundskeeper" build
artifact checker). On a `push` build, the tool packs the files that match the
artifact patterns into a gzipped tar archive. It uploads the archive to S3
under a key derived from the commit. On a pull-request build, it fetches the
snapshot stored for the base commit and unpacks it. It then compares every
file of the snapshot and every locally matched file with its counterpart. It
reports the files that differ, optionally with unified diffs, can post that
report as a comment on the pull request, and sets the process's exit code.

Modules, one per concern of the source:

- `Wrappers`: `Option`, `Result`, the `Error` record (a code and a message) and `Settled`, the state of a promise.
- `Text`: JavaScript string behaviour the core relies on.
  - Line terminators as regular expressions see them.
  - The code-unit order of `Array.prototype.sort`.
  - `join('\n')` and its inverse.
- `Keys`: the S3 key of a snapshot (`getKey`, `getBaseObject`) and `stripPrefix`.
- `Diff`: `prefixPad` and `getDiff`. The diff library is a function parameter
  applied to the exact arguments `getDiff` builds.
- `Extraction`: the unpacking step of `checkArtifacts`.
  - Classes for the insertion-ordered path `Set`, the promise, and the
    `interrupt` closure with its `interrupted` flag.
  - An imperative replay of the stream events.
- `Reconcile`:
  - `maybeReadFile`;
  - the per-file comparison and the promise pool;
  - the verdict of `checkArtifacts`: an imperative method proved equal to a
    specification function;
  - `putArtifacts`;
  - the round trip from publishing to verifying.
- `Support`: `parseRange`, `formatComment`, `pull`, `push` and `defaultCommand`.
  The CI variables are an explicit record. `checkArtifacts`, `putArtifacts`
  and `postComment` are parameters.
- `Cli`: the `--post` vocabulary, `interpretOptions`, `handle` and the exit
  codes of the whole program.

Effects become data:
- A file system is a map from path to contents or error.
- The snapshot's tar stream is the sequence of events its listeners see.
- The glob matcher, the S3 upload and the comment poster are function
  parameters.

## Model

| member | source | states |
|---|---|---|
| Keys.GetKey | src/core.js:23-25 | The key ends with `groundskeeper-artifacts-<commit>.tar.gz`. A truthy prefix puts `prefix/` in front, joined by plain concatenation; an absent or empty prefix adds nothing. |
| Keys.GetKeyInjective | src/core.js:23-25 | Under the same options, different commits get different keys. |
| Keys.GetKeyDependsOnPrefixOnly | src/core.js:23-25 | The bucket and region play no part in the key. |
| Keys.GetBaseObject | src/core.js:26-29 | The object is in the configured bucket, under `GetKey`. |
| Keys.StripPrefix | src/core.js:31-32 | A path that starts with `prefix/` loses exactly that. Any other path is returned unchanged. |
| Keys.StripPrefixRoundTrip | src/core.js:31-32 | Stripping `prefix/` from `prefix/ + p` gives back `p`. |
| Diff.MaxLength | src/core.js:35 | The length reached is at least every item's length and is some item's length. |
| Diff.PadStart | src/core.js:37 | The result has length max(length, n), ends with the string, and adds only leading spaces. A string already long enough is unchanged. |
| Diff.PadAllPads | src/core.js:34-39 | Every output has the greatest length, ends with its item and is padded only with leading spaces. An item that already has the greatest length is unchanged. |
| Diff.LongestLength | src/core.js:35 | The corrected `reduce` (see Findings): the loop over the items finds exactly `MaxLength(items)`, where the code as written gives `NaN` for three or more items. |
| Diff.PrefixPad | src/core.js:34-39 | The generator loop yields exactly `PadAll(items)`. |
| Diff.PrefixPadAsWrittenAgreesOnPairs | src/core.js:35 | With two items, the `reduce` as written pads correctly. |
| Diff.PrefixPadAsWrittenSkipsThree | src/core.js:35 | With three items, the `reduce` as written pads nothing (`["a","bb","ccc"]`), where `PadAll` gives `["  a"," bb","ccc"]`. |
| Diff.PatchRequestFor | src/core.js:42-46 | An absent side is named `/dev/null` and has empty text; a present side is named after the file. The two headers are `(<branch> version)` and `(new version)`, each padded with leading spaces to the longer label's length, so they have equal length. |
| Diff.BlankFirstMarker | src/core.js:49 | With no `\.+` line the text is unchanged. Otherwise exactly the first such line's characters are removed and its line break is kept. |
| Diff.FromFirstHeader | src/core.js:50-51 | The result is a suffix that starts with `---` exactly when some line does. It is the whole text when no line does, and otherwise starts at a line start with no `---` line before it. |
| Diff.GetDiff | src/core.js:41-52 | The marker is blanked only when a side is absent. The result is a suffix of that text, starts with `---` iff the text has such a line, begins at the first such line, and is the whole text otherwise. |
| Diff.GetDiffKeepsMarkerWhenBothPresent | src/core.js:49 | When both sides exist, the patch is only trimmed. |
| Extraction.PathSet.Add | src/core.js:56 | `Set.add` appends a path only when it is new and keeps the paths distinct. |
| Extraction.Deferred.Resolve | src/core.js:101 | Only a pending promise becomes resolved. |
| Extraction.Deferred.Reject | src/core.js:92 | Only a pending promise becomes rejected. |
| Extraction.ToError | src/core.js:92 | An error object passes through. A string becomes an error with that message. |
| Extraction.Interrupter.Interrupt | src/core.js:86-96 | The first call rejects with its own error and tears the pipe down once. The abort's re-entrant error and every later call change nothing. |
| Extraction.SettlementIsFirst | src/core.js:72-102 | The promise is settled by the first `finish` or error event. It stays pending when there is none. |
| Extraction.Extract | src/core.js:72-102 | The set ends as the old paths followed by the stripped entry paths seen before the first error, without duplicates. The settlement is the one the first settling event decides. |
| Extraction.Deliver | src/core.js:79-101 | An entry is added only while the pipe is intact. An error sets the `interrupted` flag, and only a pending promise is settled: by `finish` or by the error. |
| Extraction.CollectStep | src/core.js:79-82 | One more event adds its stripped path to the collected set exactly when it is a new entry before any error. |
| Extraction.Dedup | src/core.js:56 | The result has no duplicates and the same elements as the input. |
| Extraction.DedupOfDistinct | src/core.js:56 | A duplicate-free sequence is its own `Dedup`. |
| Reconcile.MaybeReadFile | src/core.js:20-21 | A missing file, or an `ENOENT` error, reads as `null`. Any other error is passed on. Otherwise the contents are returned. |
| Reconcile.Differs | src/core.js:113 | True exactly when the two copies differ, counting a missing copy as different from any present one. |
| Reconcile.CompareFile | src/core.js:109-118 | The comparison fails iff a read fails, with the local read's error when that one fails and the snapshot read's error otherwise. Otherwise it reports same or different exactly as the two reads agree. |
| Reconcile.PatchFor | src/core.js:116 | The entry holds a diff exactly when diffs are on. |
| Reconcile.PoolShape | src/core.js:105-120 | The pool records each changed path once, in iteration order, with exactly the map's keys. Every entry holds a diff iff diffs are on. |
| Reconcile.PoolPatches | src/core.js:105-120 | The patches map has a key for exactly the paths whose copies differ, each holding its path's patch entry. |
| Reconcile.PoolAllSame | src/core.js:105-120 | When every path has the same copies, the pool collects no path, no patch and no error. |
| Reconcile.PoolErrors | src/core.js:105-124 | Every failing comparison's error is collected. The list is empty iff nothing fails. |
| Reconcile.PoolFirstError | src/core.js:122-124 | The first error collected is that of the first failing path. |
| Reconcile.Aggregate | src/core.js:126-132 | The verdict is unchanged iff no path differs. Otherwise the files are strictly sorted and are exactly the map's keys. Patches are present iff diffs are on, and they map each file to its diff. |
| Reconcile.AggregateIgnoresOrder | src/core.js:129 | The verdict does not depend on the order in which patches were added. |
| Reconcile.ComparedPaths | src/core.js:55-56 | The compared paths are the union of the local matches and the snapshot's entries, each once. |
| Reconcile.CheckArtifacts | src/core.js:54-136 | The method (path set, extraction, pool, aggregation) returns exactly `ExpectedCheck`. |
| Reconcile.RunPool | src/core.js:105-124 | The loop over the paths computes exactly the pool state `Pool` specifies. |
| Reconcile.DedupAppend | src/core.js:55-56 | Adding paths to a set built from a list is the same as building it from both lists. |
| Reconcile.PoolUnchanged | src/core.js:105-132 | Without errors, the pool's verdict is unchanged iff every path has the same copies. |
| Reconcile.PoolFiles | src/core.js:105-132 | Without errors, the changed files are strictly sorted and are exactly the paths whose copies differ. |
| Reconcile.PoolVerdictPatches | src/core.js:105-132 | Without errors, patches are present iff diffs are on. Their keys are exactly the changed files, and each is that file's `GetDiff`. |
| Reconcile.CheckVerdict | src/core.js:54-136 | A returned verdict is unchanged iff every compared path has the same copies. Changed files are sorted and are exactly the differing paths. |
| Reconcile.CheckPatches | src/core.js:126-132 | A changed verdict carries patches iff diffs are on, with a key for exactly each changed file. |
| Reconcile.CheckPatchTexts | src/core.js:114-117 | Each patch of a changed verdict belongs to a path whose copies differ and is that path's `GetDiff`. |
| Reconcile.CheckThrowsFirstFailure | src/core.js:122-124 | After a complete unpacking, a failing comparison makes the check throw the first failing path's error. |
| Reconcile.CheckRejectsOnStreamError | src/core.js:98-102 | A stream error before `finish` makes the check throw that error. |
| Reconcile.PutArtifacts | src/core.js:138-178 | No match throws and uploads nothing. Otherwise the archive is uploaded to the snapshot's object, with entries that strip back to the matched files. The request has content type `application/gzip`. The result succeeds iff the upload does, with the URI `s3://bucket/key`; a failed upload rejects with the upload's error. |
| Reconcile.RecordedEntries | src/core.js:79-82 | Unpacking an archive without errors records each entry's path, stripped of `artifacts/`, in order. |
| Reconcile.PackedSnapshot | src/core.js:79-101 | Unpacking a freshly packed archive records exactly the matched paths and resolves. |
| Reconcile.PublishThenVerify | src/core.js:138-178 | Uploading a snapshot and then checking against it, with every matched file unchanged, gives the unchanged verdict. |
| Reconcile.UnionExample | src/core.js:55-56 | Snapshot entries {a, b} and local matches {b, c} are compared as {a, b, c}. |
| Support.ParseRange | src/support.js:10-14 | A result `(x, y)` satisfies `range == x + "..." + y` and the regular expression matches there. No result means no match exists. |
| Support.RangeMatchUnique | src/support.js:10 | The expression matches in at most one way. |
| Support.ParseRangeSplits | src/support.js:10-14 | `x...y` gives `(x, y)` for non-empty single-line `x` and `y` without `...`, where `x` does not end with a dot. |
| Support.ParseRangeFails | src/support.js:10-14 | No `...`, nothing before the first `...`, or nothing after it gives `null`. |
| Support.ParseRangeSplitsAtFirstDots | src/support.js:10-14 | `a....b` gives `("a", ".b")`. |
| Support.CommentLines | src/support.js:16-31 | The comment is the header, an opening fence (`patch` when there are patches), each file's patch (or each name) in the order of `files`, then a closing fence. |
| Support.FormatComment | src/support.js:16-31 | The pushes, then the join, give exactly `Join(CommentLines(...))`. |
| Support.FileListLines | src/support.js:17-30 | Without patches, the comment read line by line is the header, a blank line, the fence, the file names and the fence. |
| Support.Report | src/support.js:42-61 | Unchanged resolves `{result: true}` with no action. Changed resolves `{action: 'pull', result: false, files, patches}`. A comment is posted iff the flag for that outcome is set. A returned verdict resolves unless its post fails, a failed post rejects with the poster's error, a failed check rejects with its error, and a check that never settles leaves `pull` pending. |
| Support.Pull | src/support.js:33-62 | A missing base commit, or an unset or empty branch, throws before any check. Otherwise `checkArtifacts` is always asked about the policy, the range's base commit and the branch, and `pull` reports as `Report` says. |
| Support.PullCorrected | src/support.js:47-61 | The same as `Pull`, except that every resolved output carries `action: 'pull'`. |
| Support.Push | src/support.js:64-79 | An unset or empty commit throws. Otherwise the snapshot is published under that commit, and the command resolves `{action: 'push', result: true, uri}` or rejects with the upload's error. It never stays pending. |
| Support.DefaultCommand | src/support.js:81-91 | `pull_request` runs `pull`, `push` runs `push`, and anything else resolves `null`. |
| Cli.InterpretPullOptions | bin/src/index.js:96-100 | Always-words post on both outcomes and never-words on neither. The positive words post only on success and the negative words only on failure. |
| Cli.PostArgument | bin/src/index.js:32-36 | An absent `--post` means `always`. A word outside the choices is refused. |
| Cli.InterpretOptions | bin/src/index.js:85-94 | The bucket is `--bucket`, else `S3_BUCKET`, else the process bails. Region and prefix pass through. |
| Cli.CompletePull | bin/src/index.js:41-54 | The exit code is 1 iff the artifacts changed and `--fail` is set, and 0 otherwise. |
| Cli.Handle | bin/src/index.js:61-78 | A rejection exits 2 and nothing else does. A `null` output exits 1 under `--fail` and 0 otherwise. A `pull` output exits per `CompletePull`, a `push` output ends normally (exit 0), and any other output makes the handler throw. |
| Cli.Dispatch | bin/src/index.js:123-143 | With `pull` as corrected (`Support.PullCorrected`; see Findings), each command resolves only with an output whose action is `pull` or `push`, or, for the default command outside `pull_request` and `push` builds, with `null`. |
| Cli.DispatchAsWritten | src/support.js:47-54 | The source's dispatch differs from `Dispatch` only in the missing action of an unchanged `pull`. |
| Cli.CommandOptions | bin/src/index.js:123-143 | `pull` and the default command get `--diff` and the post flags. `push` gets neither. |
| Cli.Run | bin/src/index.js:102-146 | With `pull` as corrected, through `Dispatch`: an invalid `--post` or a missing bucket exits 1. Otherwise the command's promise goes to `Handle`. |
| Cli.RunEnds | bin/src/index.js:61-100 | With the corrected `pull`, the process never dies of an unhandled rejection. It exits 0, 1 or 2, and exit 1 implies bad arguments, no bucket, or `--fail`. |
| Cli.UnchangedPullIsUnhandled | bin/src/index.js:61-66 | As written, an unchanged `pull` verdict makes `handle` throw. |
| Cli.UnchangedPullRequestBuild | bin/src/index.js:61-66 | A concrete pull-request build with unchanged artifacts ends in an unhandled rejection. |
| Cli.CorrectedPullExits | bin/src/index.js:53 | With the corrected `pull`, a settled pull exits 0 when unchanged, and 1 exactly when changed under `--fail`. |
| Text.Sort | src/core.js:129 | The result is strictly sorted in code-unit order and is a permutation of the (duplicate-free) input. |
| Text.SortKeepsElements | src/core.js:129 | Sorting a duplicate-free list keeps exactly its strings. |
| Text.StrictlySortedUnique | src/core.js:129 | Two strictly sorted sequences with the same elements are equal. |
| Text.SplitJoin | src/support.js:30 | Splitting a newline join of single-line strings at its newlines gives the strings back. |

## Left out

- S3, tar, gzip, globby and the temporary directory, with its cleanup, are not modelled as code:
  - the upload is a function from the request to an optional error;
  - the fetched snapshot is the sequence of stream events it produces;
  - glob matching is a function of the patterns.
- `Extraction.Extract` models unpacking as the entry events up to the first error. Entries after the first error are not recorded, because the pipe is torn down.
- Reconcile.Pool: the promise pool (8 concurrent tasks) is modelled sequentially, with errors collected in iteration order. Which error is thrown first under real concurrency is not captured.
- Reconcile.CompareFile: the two reads of `Promise.all` are checked local first, so when both fail the local error is the one reported.
- `path.join` normalisation is not modelled, neither for the extracted path nor in `maybePrefix` (src/core.js:23). Snapshot files are a separate map keyed by their path under `artifacts/`.
- Keys.GetKey: the prefix is joined by concatenation with `/`. `path.join` would also collapse a trailing slash (`a/` gives `a/groundskeeper-…`, not `a//groundskeeper-…`) and drop a `.` prefix; the model does neither.
- Cli.Dispatch, Cli.Run: the CLI is modelled with the corrected `pull`, so an unchanged `pull` verdict reaches its completion. The program as written is captured by `Cli.DispatchAsWritten` and `Cli.UnchangedPullIsUnhandled`.
- Diff.MaxLength, Diff.PadStart, Diff.LongestLength, Diff.PrefixPad, Diff.PatchRequestFor: lengths are counted in Unicode scalar values (Dafny's `char`), not in the UTF-16 code units of JavaScript's `.length` and `padStart`, so when a label holds a character outside the Basic Multilingual Plane (a base-branch name with an emoji, say) the padded labels can differ from those src/core.js:35-37 builds.
- Text.Sort: code-unit order is modelled as Dafny's `char` order, which agrees with JavaScript's UTF-16 order only for characters of the Basic Multilingual Plane.
- yargs parsing, `--help` and console output are not modelled. `Cli.Args` holds the parsed arguments with the boolean defaults applied, and the positional arguments are passed on as yargs provides them.
- Cli.Handle: the `push` completion does not call `process.exit`. The resulting normal end is modelled as exit code 0, and a never-settling promise as `StillWaiting`.
- Cli.Handle: an unhandled rejection is an outcome of its own. The exit status Node gives it depends on the Node version.
- Support.ParseRange: "X...Y gives [X, Y]" holds only when X does not end with `.` and neither side contains `...` or a line terminator. The lemmas state that precise condition, and `a....b` splits as `a` / `.b`.
- Support.Pull: the `mode` option is passed through to `checkArtifacts` but never read there, so the model omits it.
- The comment poster's `purpose` option is not modelled. `postComment` receives only the comment text.

## Findings

| source | as written | input that shows it | evidently intended | confidence | as-written member | corrected member |
|---|---|---|---|---|---|---|
| src/support.js:53 | `pull` resolves `{ result }` with no `action` when nothing changed. `handle` then looks up `complete.get(undefined)`, which is `undefined`; calling it throws a `TypeError` inside the fulfilment handler, so the rejection goes unhandled. | A `pull_request` build with range `a1...b2`, branch `master`, and a check that reports no change | `{ action: 'pull', result: true }`, reaching the `pull` completion and exiting 0 | not executed | Cli.UnchangedPullIsUnhandled | Support.PullCorrected |
| src/core.js:35 | `reduce((a, b) => Math.max(a.length, b.length))` with no initial value. From the third item on, `a` is a number and `a.length` is undefined, so the length is `NaN` and nothing is padded. | `prefixPad('a', 'bb', 'ccc')` yields `a`, `bb`, `ccc` | The greatest length, 3, giving `  a`, ` bb`, `ccc` | not executed | Diff.PrefixPadAsWrittenSkipsThree | Diff.PrefixPad |
