# differing: the repository-access core, modelled in Dafny

`differing` is a small web service that shows the diffs of a git repository:
- the uncommitted working changes,
- the recent commits,
- the files each diff touches.

It also lets the user amend the message of the HEAD commit and save edited files. This project models the part of `main.go` that reads git's output and guards the two write paths:

- **parseDiffStat** (`Numstat`) sums the lines of `git diff --numstat`:
  - added and deleted lines, summed in Go `int`s (64-bit, wrapping);
  - the number of lines with at least two fields;
  - a binary file's `-` counts nothing.
- **getDiffs** and **getDiffCommits** (`GitLog`) parse the NUL-separated `git log` records. getDiffs gives one entry per commit, with its own numstat totals, behind a synthetic `working` entry. getDiffCommits flags the commit whose hash is HEAD's. When its first log fails, it falls back to a log of HEAD alone. The first log is the range log for a commit, or the recent log for `working`.
- **getDiffFiles** (`DiffFiles`) works like this:
  - It reads `git diff --name-status <base>`, splitting each line at white space as main.go does. It maps `A` to added, `D` to deleted and any other code to modified.
  - It asks git for each file's counts.
  - It collects the entries in a loop.
  - A second fold splits each line at its tab, the corrected reading of the finding below. The two are proved to agree on paths without white space.
  - It sorts them by path in place, with an insertion sort on an array.
- **validateRepoPath** (`RepoPath`) refuses a path that is:
  - empty or absolute;
  - not tracked by git;
  - outside the repository once joined to the root and cleaned.
- **amendCommitMessage** (`Amend`) decides whether to amend:
  - It refuses a blank message.
  - It refuses any commit that is not HEAD.
  - It amends.
  - It reports the new HEAD.
  - It warns (without blocking) when a remote-tracking branch already holds the old HEAD.

Supporting modules model the Go library functions the handlers rely on:
- `GoStrings`: `strings.TrimSpace`, `Split`, `Join`, `Fields` (with the Unicode white-space table), `HasPrefix` and byte-wise string `<`.
- `GoStrconv`: `strconv.Atoi`/`ParseInt`, with the error dropped as the handlers drop it, and `FormatInt`.
- `GoInt`: 64-bit wrap-around.
- `FilePath`: `filepath.IsAbs`, `Clean`, `Join` and `Abs` on absolute Unix paths.

The `git` subprocess is an input: `Git.Command` is the argument vector main.go passes, and a function `git: Command -> Run` gives each command's exit status, standard output and combined output. The amend handler runs four commands while HEAD moves, so it receives the four answers in order (`Amend.AmendRuns`).

Notes on main.go's behaviour:
- A path that escapes the repository is refused with "file path outside repository" (`OutsideRepository`). It is a refusal of its own, not an invalid path.
- The pushed-check runs before the amend, on the old HEAD.
- getDiffCommits does not make sure that exactly one listed commit is HEAD. The model proves "at most one, when hashes are distinct" (`GitLog.CommitsOfLog`).
- A commit with no parent keeps its entry: its numstat command fails, its output is empty, and its totals are zero.

## Model

| member | source | states |
|---|---|---|
| Numstat.ParseDiffStat | main.go:254-275 | the three results are the totals `DiffStat(output)` of the lines of the trimmed output, line counts wrapped as Go ints |
| Numstat.AddLines | main.go:256-273 | the loop's running totals after all lines are the wrapped exact sums of the lines' contributions |
| Numstat.AddLine | main.go:257-272 | an empty line changes nothing; any other line adds the totals of its white-space fields, with wrap-around |
| Numstat.AddFields | main.go:261-271 | fewer than two fields add nothing; otherwise each column not "-" adds its Atoi value and the file count grows by one |
| Numstat.Count | main.go:263-270 | a "-" column counts 0, any other column its Atoi value |
| Numstat.DiffStatOfBlank | main.go:255-259 | output made only of white space gives zero files, zero additions and zero deletions |
| Numstat.FilesCountIsFileLines | main.go:260-272 | filesCount is exactly the number of lines with at least two fields |
| Numstat.NumstatLineTotals | main.go:260-272 | the line git prints for a text file with counts a and d adds a, d and one file |
| Numstat.BinaryLine | main.go:262-271 | a binary-file line ("-", "-", path) adds one file and no lines |
| Numstat.NonNumericCount | main.go:264-269 | a count that does not start like a number contributes 0, because the Atoi error is dropped |
| Numstat.DiffStatAdditive | main.go:255-273 | the totals of two outputs joined by a line break are the Go-int sums of their totals |
| GoStrconv.AtoiFormatInt | main.go:232 | reading back the decimal form of any int64 gives the same number |
| GoStrconv.AtoiNotNumeric | main.go:232 | a string that does not start with a sign or digit reads as 0 |
| GoStrconv.AtoiDigits | main.go:264-269 | a string of digits reads as its value, clamped to the int64 range |
| GoStrconv.AtoiOverflow | main.go:264-269 | digits whose value passes 2^64 - 1 give the largest (or, after "-", the smallest) int64 whatever characters follow them |
| GitLog.ParseLogLine | main.go:223-232 | a line is skipped exactly when it is empty or has fewer than four NUL-separated fields; the time read is an int64 |
| GitLog.ShortLineSkipped | main.go:227-230 | a line with fewer than four fields contributes no record wherever it stands |
| GitLog.RecordsAppend | main.go:223-248 | the records of concatenated lines are the concatenated records: the loop keeps log order |
| GitLog.ParseFormatLine | main.go:214-232 | a commit line in the requested format parses back to its hash, subject, author and time |
| GitLog.LogRoundTrip | main.go:214-232 | parsing the log git prints for a list of well-formed commits gives back that list, in order |
| GitLog.Diffs | main.go:194-251 | fails exactly when `git log` fails, with "Failed to get git log"; otherwise the first entry is "working" and carries the working numstat's totals |
| GitLog.DiffsOfLog | main.go:203-248 | when git prints the commits recs, the entries after "working" are exactly one per commit with that commit's hash, in log order |
| GitLog.CommitDiffsAt | main.go:235-247 | each commit entry carries its commit's fields and the totals of `git diff <id>^ <id> --numstat` |
| GitLog.ListDiffs | main.go:194-251 | the handler's result equals `Diffs` |
| GitLog.LogDiffs | main.go:223-248 | the loop's list equals one entry per parsed log line, in order |
| GitLog.Commits | main.go:471-531 | fails exactly when HEAD cannot be read, or when the requested log and the fallback log both fail, with the matching error text |
| GitLog.CommitsHeadFlag | main.go:484-526 | a listed commit is flagged HEAD exactly when its hash equals the trimmed `rev-parse HEAD` output |
| GitLog.CommitInfosAt | main.go:521-527 | each commit entry carries its record's fields, and isHead iff its hash is the HEAD hash |
| GitLog.CommitsOfLog | main.go:486-528 | when the log that answers prints recs, the result lists their hashes in order; with distinct hashes at most one entry is HEAD |
| GitLog.ListCommits | main.go:471-531 | the handler's result equals `Commits` |
| GitLog.LogCommits | main.go:509-528 | the loop's list equals one entry per parsed log line, in order |
| DiffFiles.StatusOf | main.go:312-320 | "A" is added, "D" deleted, and every other code modified (both directions) |
| DiffFiles.ParseNameStatusAsWritten | main.go:303-310 | as main.go reads a line: skipped exactly when it is empty or has fewer than two white-space fields |
| DiffFiles.ParseNameStatus | main.go:303-310 | corrected half of the first finding: a line is skipped exactly when it is empty or has no tab-separated path |
| DiffFiles.NameStatusRoundTrip | main.go:300-310 | corrected half: a printed name-status line without tabs in code or path parses back to its code and path |
| DiffFiles.ParsersAgree | main.go:307-310 | for a code and path without white space, the white-space parser and the tab parser both read the entry back |
| DiffFiles.FileCounts | main.go:323-332 | per-file counts are (0, 0) when the numstat output has fewer than two fields |
| DiffFiles.FileCountsOfNumstat | main.go:323-332 | the numstat line of a text file reads back as its exact counts |
| DiffFiles.FileCountsOfBinary | main.go:323-332 | a binary file's per-file counts are (0, 0) |
| DiffFiles.FilesByEntries | main.go:303-340 | when every line reads as its entry, the loop's fold lists exactly those entries, in order |
| DiffFiles.ListedFilesAgree | main.go:300-341 | when no status or path holds white space, main.go's loop lists exactly the entries git printed, in order, and so does the tab-split loop |
| DiffFiles.CorrectedFilesOfFormatted | main.go:300-341 | corrected half: with the tab split, the printed lines of any entries without tabs yield exactly those entries, in order |
| DiffFiles.ListFiles | main.go:277-348 | fails exactly when `git diff --name-status` fails, with "Failed to get diff files"; otherwise the result is sorted by path and a permutation of the entries main.go's white-space loop collects |
| DiffFiles.CollectFiles | main.go:300-341 | the loop's list equals one entry per name-status line that main.go's strings.Fields read accepts, in order |
| DiffFiles.SortByPath | main.go:343-345 | the array ends sorted by path and is a permutation of its old contents |
| DiffFiles.Insert | main.go:343-345 | one insertion step extends the sorted prefix by one element, keeps a permutation and leaves the entries after it untouched |
| RepoPath.ValidateRepoPathAsWritten | main.go:399-431 | as main.go writes it: empty or absolute paths are invalid whatever git answers; untracked paths are not tracked; any error names the path given |
| RepoPath.ValidateRepoPath | main.go:399-431 | corrected half of the second finding: empty or absolute paths are invalid; untracked paths are not tracked; any error names the path given |
| RepoPath.ValidateRepoPathAccepts | main.go:399-431 | corrected half: a path is accepted iff it is non-empty, relative and tracked, and its cleaned join with the root lies at or below the root (main.go's own test differs only at root "/", see AsWrittenAgrees and RootSlashRejectsFile) |
| RepoPath.AsWrittenAgrees | main.go:412-428 | for every root other than "/" main.go's containment test and the corrected one give the same answer |
| RepoPath.ParentRejected | main.go:412-428 | "../x" under "/repo" is refused as outside the repository even when git tracks it |
| RepoPath.SiblingRejected | main.go:412-428 | "../repo-evil/x" under "/repo" is refused although its absolute path starts with "/repo" |
| RepoPath.AsWrittenRejectsBelowSlash | main.go:425-428 | with the repository at "/", main.go refuses every tracked path below the root while the corrected test accepts it |
| RepoPath.RootSlashRejectsFile | main.go:425-428 | with the repository at "/", the tracked file "a" is refused by main.go and accepted by the corrected test |
| DiffFiles.BlankCutsPath | main.go:307-341 | main.go's white-space split reports a path with a blank cut at the blank; the tab split keeps the whole path |
| DiffFiles.PathWithBlankTruncated | main.go:307-310 | main.go reads the line "M\tmy file.txt" as the status "M" and the path "my" |
| DiffFiles.PathWithBlankKept | main.go:307-310 | corrected half: the tab parser reads the same line as the path "my file.txt" |
| DiffFiles.ListedPathTruncated | main.go:303-340 | for the line "M\tmy file.txt", main.go's loop lists the file "my" with the counts git gives for "my"; the tab-split loop lists "my file.txt" |
| Amend.AmendCommitMessage | main.go:535-603 | a blank message is refused with 400 before any git call; when HEAD cannot be read the answer is 500 and nothing else runs; a commit other than HEAD is refused with 403 and never amended; the amend runs iff the message is not blank and names HEAD; a failed amend reports git's combined output; on success the new HEAD is reported, with the force-push warning iff the branch probe succeeded with output |
| Amend.ProbeNeverBlocks | main.go:568-575 | the branch probe's answer never changes whether the amend runs or whether it succeeds |

## Left out

- HTTP routing, JSON encoding, the embedded frontend, `openBrowser`, `main` and flag parsing are not modelled. They carry no logic of the core.
- The "Invalid request" answer of amendCommitMessage is not modelled. JSON binding is left out, and the message is an input.
- getGitRoot, getFileDiff, saveFile and getRepoInfo are not part of this model. They are file and subprocess I/O; validateRepoPath, the guard saveFile applies, is modelled.
- The git subprocess is a deterministic function of its arguments. Within one read-only handler, the model assumes the repository does not change between two calls. The amend handler gets one answer per call instead.
- `time.Now()` is the parameter `now`, and `time.Unix(t, 0)` is the integer t.
- filepath.Abs error paths ("unable to resolve ...") are not modelled. The root is absolute, so Abs is Clean and cannot fail.
- FilePath models Unix paths only. There are no Windows volumes or separators.
- Strings are sequences of characters. Invalid UTF-8 and git's quoting of unusual paths are not modelled.
- `int` is modelled as 64-bit. 32-bit platforms are not modelled.
- The difference between a nil and an empty JSON array is not modelled.
- Error and status texts are represented by constructors (`InvalidPath`, `Added`, ...), not by the strings the handlers send, except where a handler's error text is a constant.
- DiffFiles.ListFiles: promises only that the result is sorted by path and a permutation of the entries, because sort.Slice is not stable and does not fix the order of equal paths.
- DiffFiles.FileCounts: the `statOutput != nil` test is not modelled separately, because an empty output has fewer than two fields and gives (0, 0) either way.
- Renames and copies (`R`/`C` lines with two paths) are only covered by the status mapping. The path read is the first one.
- GitLog.CommitsOfLog: promises at most one HEAD entry, not exactly one, because main.go does not ensure that HEAD appears in the log it reads.

## Findings

| source | as written | input that shows it | evidently intended | confidence | as-written member | corrected member |
|---|---|---|---|---|---|---|
| main.go:307-310 | name-status lines are split with strings.Fields, so a path containing a blank is cut at the blank | the line "M\tmy file.txt" is listed as the path "my" | split at the tab git prints between the status and the path, keeping "my file.txt" | not executed | DiffFiles.ListedPathTruncated | DiffFiles.CorrectedFilesOfFormatted |
| main.go:425-428 | the file must start with the repository path plus "/" | repository root "/" and tracked file "a": the prefix tested is "//", so "/a" is refused as outside the repository | append the separator only when the root does not already end with one | not executed | RepoPath.RootSlashRejectsFile | RepoPath.ValidateRepoPathAccepts |
