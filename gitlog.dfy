/** The commit lists of the getDiffs and getDiffCommits handlers. Both read
    `git log` output in the format "%H%x00%s%x00%an%x00%at": one line per
    commit holding hash, subject, author name and author time, separated by
    NUL characters. */
module GitLog {
  import opened Wrappers
  import opened GoInt
  import opened GoStrings
  import opened GoStrconv
  import opened Git
  import opened Numstat

  datatype LogRecord = LogRecord(id: string, message: string, author: string, timestamp: int)

  /** One log line: skipped when empty or when it has fewer than four
      NUL-separated fields; fields past the fourth are ignored, and the time
      is read with strconv.ParseInt (0 when it is not a number). */
  function ParseLogLine(line: string): (r: Option<LogRecord>)
    ensures r.None? <==> line == "" || |Split(line, '\0')| < 4
    ensures r.Some? ==> InInt64(r.value.timestamp)
  {
    if line == "" then None
    else
      var parts := Split(line, '\0');
      if |parts| < 4 then None
      else Some(LogRecord(parts[0], parts[1], parts[2], Atoi(parts[3])))
  }

  /** The records of the lines that parse, in the order of the lines. */
  function Records(lines: seq<string>): (r: seq<LogRecord>)
    ensures |r| <= |lines|
  {
    if lines == [] then []
    else
      var init := Records(lines[..|lines| - 1]);
      match ParseLogLine(lines[|lines| - 1])
      case None => init
      case Some(rec) => init + [rec]
  }

  /** The records of a whole `git log` output (split after TrimSpace). */
  function LogRecords(output: string): seq<LogRecord> {
    Records(Split(TrimSpace(output), '\n'))
  }

  /** What git prints for one commit. */
  function FormatLine(rec: LogRecord): string {
    Join([rec.id, rec.message, rec.author, FormatInt(rec.timestamp)], '\0')
  }

  function FormatLines(recs: seq<LogRecord>): (r: seq<string>)
    ensures |r| == |recs|
  {
    if recs == [] then [] else FormatLines(recs[..|recs| - 1]) + [FormatLine(recs[|recs| - 1])]
  }

  /** What git prints for a list of commits. */
  function FormatLog(recs: seq<LogRecord>): string {
    Join(FormatLines(recs), '\n')
  }

  /** A record git can print: a non-empty hash without white space, and no
      NUL or newline inside the subject or author; the time is an int64. */
  predicate WellFormed(rec: LogRecord) {
    && rec.id != [] && NoSpace(rec.id) && '\0' !in rec.id
    && '\0' !in rec.message && '\n' !in rec.message
    && '\0' !in rec.author && '\n' !in rec.author
    && InInt64(rec.timestamp)
  }

  predicate AllWellFormed(recs: seq<LogRecord>) {
    forall k :: 0 <= k < |recs| ==> WellFormed(recs[k])
  }

  lemma RecordsStep(lines: seq<string>, i: nat)
    requires i < |lines|
    ensures ParseLogLine(lines[i]).None? ==> Records(lines[..i + 1]) == Records(lines[..i])
    ensures ParseLogLine(lines[i]).Some? ==>
      Records(lines[..i + 1]) == Records(lines[..i]) + [ParseLogLine(lines[i]).value]
  {
    assert lines[..i + 1][..i] == lines[..i];
  }

  /** Records of a concatenation are the concatenated records. */
  lemma {:induction false} RecordsAppend(a: seq<string>, b: seq<string>)
    ensures Records(a + b) == Records(a) + Records(b)
  {
    if b != [] {
      var b' := b[..|b| - 1];
      RecordsAppend(a, b');
      assert (a + b)[..|a + b| - 1] == a + b';
      assert (a + b)[|a + b| - 1] == b[|b| - 1];
      match ParseLogLine(b[|b| - 1])
      case None =>
        assert Records(a + b) == Records(a + b');
        assert Records(b) == Records(b');
      case Some(rec) =>
        assert Records(a + b) == Records(a + b') + [rec];
        assert Records(b) == Records(b') + [rec];
    } else {
      assert a + b == a;
    }
  }

  /** A line with fewer than four fields contributes no record, wherever it
      stands. */
  lemma ShortLineSkipped(a: seq<string>, line: string, b: seq<string>)
    requires |Split(line, '\0')| < 4
    ensures Records(a + [line] + b) == Records(a + b)
  {
    RecordsAppend(a + [line], b);
    RecordsAppend(a, [line]);
    RecordsAppend(a, b);
    assert [line][..0] == [];
  }

  /** No character of a formatted time is a NUL or white space. */
  lemma TimeField(n: int)
    ensures '\0' !in FormatInt(n) && NoSpace(FormatInt(n))
  {
    var f := FormatInt(n);
    forall i | 0 <= i < |f| ensures !IsSpace(f[i]) && f[i] != '\0' {
      PrintableNotSpace(f[i]);
    }
  }

  /** A printed commit line parses back to the record. */
  lemma ParseFormatLine(rec: LogRecord)
    requires WellFormed(rec)
    ensures ParseLogLine(FormatLine(rec)) == Some(rec)
  {
    var parts := [rec.id, rec.message, rec.author, FormatInt(rec.timestamp)];
    TimeField(rec.timestamp);
    SplitJoin(parts, '\0');
    AtoiFormatInt(rec.timestamp);
    JoinFirst(parts, '\0');
  }

  lemma {:induction false} RecordsOfFormatted(recs: seq<LogRecord>)
    requires AllWellFormed(recs)
    ensures Records(FormatLines(recs)) == recs
  {
    if recs != [] {
      var init := recs[..|recs| - 1];
      RecordsOfFormatted(init);
      ParseFormatLine(recs[|recs| - 1]);
      var lines := FormatLines(recs);
      assert lines[..|lines| - 1] == FormatLines(init);
    }
  }

  /** A formatted line holds no newline, and it starts with its hash and
      ends with a digit of its time. */
  lemma FormatLineShape(rec: LogRecord)
    requires WellFormed(rec)
    ensures '\n' !in FormatLine(rec)
    ensures var l := FormatLine(rec); |l| > 0 && !IsSpace(l[0]) && !IsSpace(l[|l| - 1])
  {
    var t := FormatInt(rec.timestamp);
    var parts := [rec.id, rec.message, rec.author, t];
    TimeField(rec.timestamp);
    assert IsSpace('\n');
    JoinWithout(parts, '\0', '\n');
    JoinFirst(parts, '\0');
    JoinLast(parts, '\0');
  }

  lemma {:induction false} FormatLinesWithoutNewline(recs: seq<LogRecord>)
    requires AllWellFormed(recs)
    ensures forall i :: 0 <= i < |recs| ==> '\n' !in FormatLines(recs)[i]
  {
    if recs != [] {
      FormatLinesWithoutNewline(recs[..|recs| - 1]);
      FormatLineShape(recs[|recs| - 1]);
    }
  }

  lemma {:induction false} FormatLinesAt(recs: seq<LogRecord>, i: nat)
    requires i < |recs|
    ensures FormatLines(recs)[i] == FormatLine(recs[i])
  {
    if i < |recs| - 1 {
      FormatLinesAt(recs[..|recs| - 1], i);
    }
  }

  /** Reading back what git prints for a list of commits gives that list,
      in the same order: the log parser loses and reorders nothing. */
  lemma LogRoundTrip(recs: seq<LogRecord>)
    requires AllWellFormed(recs)
    ensures LogRecords(FormatLog(recs)) == recs
  {
    var lines := FormatLines(recs);
    if recs == [] {
      assert TrimSpace("") == "";
      assert Split("", '\n') == [""];
      assert Records([""]) == Records([]);
    } else {
      FormatLinesWithoutNewline(recs);
      FormatLinesAt(recs, 0);
      FormatLinesAt(recs, |recs| - 1);
      FormatLineShape(recs[0]);
      FormatLineShape(recs[|recs| - 1]);
      JoinFirst(lines, '\n');
      JoinLast(lines, '\n');
      TrimSpaceNoop(FormatLog(recs));
      SplitJoin(lines, '\n');
      RecordsOfFormatted(recs);
    }
  }

  // ---------------------------------------------------------------- getDiffs

  datatype DiffInfo = DiffInfo(
    id: string, message: string, author: string, timestamp: int,
    filesCount: int, additions: int, deletions: int)

  /** The entry for uncommitted changes, stamped with the current time. */
  function WorkingDiff(git: Command -> Run, now: int): DiffInfo {
    var t := DiffStat(git(WorkingNumstat).stdout);
    DiffInfo("working", "Working Changes", "", now, t.filesCount, t.additions, t.deletions)
  }

  /** The entry of one commit, with the totals of its own numstat. */
  function CommitDiff(git: Command -> Run, rec: LogRecord): DiffInfo {
    var t := DiffStat(git(CommitNumstat(rec.id)).stdout);
    DiffInfo(rec.id, rec.message, rec.author, rec.timestamp, t.filesCount, t.additions, t.deletions)
  }

  /** The entries of a list of commits: one per commit, in the same order,
      each carrying the commit's fields and its numstat totals. */
  function CommitDiffs(git: Command -> Run, recs: seq<LogRecord>): (r: seq<DiffInfo>)
    ensures |r| == |recs|
  {
    if recs == [] then [] else CommitDiffs(git, recs[..|recs| - 1]) + [CommitDiff(git, recs[|recs| - 1])]
  }

  /** Each entry carries its commit's fields and the totals of that
      commit's own numstat. */
  lemma {:induction false} CommitDiffsAt(git: Command -> Run, recs: seq<LogRecord>, k: nat)
    requires k < |recs|
    ensures var d := CommitDiffs(git, recs)[k];
      && d.id == recs[k].id && d.message == recs[k].message
      && d.author == recs[k].author && d.timestamp == recs[k].timestamp
      && Totals(d.additions, d.deletions, d.filesCount)
         == DiffStat(git(CommitNumstat(recs[k].id)).stdout)
  {
    if k < |recs| - 1 {
      CommitDiffsAt(git, recs[..|recs| - 1], k);
    }
  }

  /** getDiffs: the working entry, then one entry per recent commit; fails
      only when `git log` fails. */
  function Diffs(git: Command -> Run, now: int): (r: Result<seq<DiffInfo>, string>)
    ensures r.Failure? <==> !git(RecentLog).ok
    ensures r.Failure? ==> r.error == "Failed to get git log"
    ensures r.Success? ==>
      && |r.value| >= 1 && r.value[0].id == "working"
      && Totals(r.value[0].additions, r.value[0].deletions, r.value[0].filesCount)
         == DiffStat(git(WorkingNumstat).stdout)
  {
    var log := git(RecentLog);
    if !log.ok then Failure("Failed to get git log")
    else Success([WorkingDiff(git, now)] + CommitDiffs(git, LogRecords(log.stdout)))
  }

  lemma DiffsTail(git: Command -> Run, now: int)
    requires git(RecentLog).ok
    ensures Diffs(git, now).value[1..] == CommitDiffs(git, LogRecords(git(RecentLog).stdout))
  {
    var c := CommitDiffs(git, LogRecords(git(RecentLog).stdout));
    assert Diffs(git, now).value == [WorkingDiff(git, now)] + c;
  }

  /** When git prints the commits `recs`, getDiffs lists exactly them after
      the working entry, in log order. */
  lemma DiffsOfLog(git: Command -> Run, now: int, recs: seq<LogRecord>)
    requires git(RecentLog).ok && git(RecentLog).stdout == FormatLog(recs)
    requires AllWellFormed(recs)
    ensures Diffs(git, now).Success?
    ensures var v := Diffs(git, now).value;
      |v| == |recs| + 1 && forall k :: 0 <= k < |recs| ==> v[k + 1].id == recs[k].id
  {
    DiffsTail(git, now);
    LogRoundTrip(recs);
    var v := Diffs(git, now).value;
    var c := CommitDiffs(git, recs);
    assert v[1..] == c;
    forall k | 0 <= k < |recs| ensures v[k + 1].id == recs[k].id {
      assert v[k + 1] == c[k];
      CommitDiffsAt(git, recs, k);
    }
  }

  /** getDiffs: numstat of the working tree first, then the recent log. */
  method ListDiffs(git: Command -> Run, now: int) returns (r: Result<seq<DiffInfo>, string>)
    ensures r == Diffs(git, now)
  {
    var workingAdditions, workingDeletions, workingFilesCount := ParseDiffStat(git(WorkingNumstat).stdout);
    var working := DiffInfo("working", "Working Changes", "", now,
                            workingFilesCount, workingAdditions, workingDeletions);
    var log := git(RecentLog);
    if !log.ok {
      return Failure("Failed to get git log");
    }
    var entries := LogDiffs(git, log.stdout);
    return Success([working] + entries);
  }

  /** The handler's loop: one numstat per parsed log line, appended in log
      order. */
  method LogDiffs(git: Command -> Run, output: string) returns (diffs: seq<DiffInfo>)
    ensures diffs == CommitDiffs(git, LogRecords(output))
  {
    var lines := Split(TrimSpace(output), '\n');
    diffs := [];
    for i := 0 to |lines|
      invariant diffs == CommitDiffs(git, Records(lines[..i]))
    {
      RecordsStep(lines, i);
      match ParseLogLine(lines[i]) {
        case None =>
        case Some(rec) =>
          var additions, deletions, filesCount := ParseDiffStat(git(CommitNumstat(rec.id)).stdout);
          diffs := diffs + [DiffInfo(rec.id, rec.message, rec.author, rec.timestamp,
                                     filesCount, additions, deletions)];
          CommitDiffsSnoc(git, Records(lines[..i]), rec);
      }
    }
    assert lines[..|lines|] == lines;
  }

  lemma CommitDiffsSnoc(git: Command -> Run, recs: seq<LogRecord>, rec: LogRecord)
    ensures CommitDiffs(git, recs + [rec]) == CommitDiffs(git, recs) + [CommitDiff(git, rec)]
  {
    assert (recs + [rec])[..|recs|] == recs;
  }

  // ---------------------------------------------------------- getDiffCommits

  datatype CommitInfo = CommitInfo(
    id: string, message: string, author: string, timestamp: int, isHead: bool)

  function CommitOf(rec: LogRecord, headHash: string): CommitInfo {
    CommitInfo(rec.id, rec.message, rec.author, rec.timestamp, rec.id == headHash)
  }

  /** One entry per commit, in order; exactly the commits whose hash is
      the HEAD hash are flagged as HEAD. */
  function CommitInfos(recs: seq<LogRecord>, headHash: string): (r: seq<CommitInfo>)
    ensures |r| == |recs|
  {
    if recs == [] then []
    else CommitInfos(recs[..|recs| - 1], headHash) + [CommitOf(recs[|recs| - 1], headHash)]
  }

  /** Each entry carries its commit's fields, and it is flagged as HEAD
      exactly when its hash is the HEAD hash. */
  lemma {:induction false} CommitInfosAt(recs: seq<LogRecord>, headHash: string, k: nat)
    requires k < |recs|
    ensures var c := CommitInfos(recs, headHash)[k];
      && c.id == recs[k].id && c.message == recs[k].message
      && c.author == recs[k].author && c.timestamp == recs[k].timestamp
      && (c.isHead <==> recs[k].id == headHash)
  {
    if k < |recs| - 1 {
      CommitInfosAt(recs[..|recs| - 1], headHash, k);
    }
  }

  /** The log getDiffCommits asks for first: the recent commits for the
      working entry, otherwise the commits after the parent of `diffID` up
      to HEAD. */
  function CommitLog(diffID: string): Command {
    if diffID == "working" then RecentLog else RangeLog(diffID)
  }

  /** getDiffCommits: fails when HEAD cannot be read, or when both the
      requested log and the fallback log of HEAD alone fail. */
  function Commits(diffID: string, git: Command -> Run): (r: Result<seq<CommitInfo>, string>)
    ensures r.Failure? <==>
      !git(RevParseHead).ok || (!git(CommitLog(diffID)).ok && !git(HeadLog).ok)
    ensures r.Failure? ==>
      r.error == if !git(RevParseHead).ok then "Failed to get HEAD" else "Failed to get commits"
  {
    var head := git(RevParseHead);
    if !head.ok then Failure("Failed to get HEAD")
    else
      var primary := git(CommitLog(diffID));
      var log := if primary.ok then primary else git(HeadLog);
      if !log.ok then Failure("Failed to get commits")
      else Success(CommitInfos(LogRecords(log.stdout), TrimSpace(head.stdout)))
  }

  /** A listed commit is flagged as HEAD exactly when its hash is what
      `git rev-parse HEAD` printed, trimmed. */
  lemma CommitsHeadFlag(diffID: string, git: Command -> Run, k: nat)
    requires Commits(diffID, git).Success? && k < |Commits(diffID, git).value|
    ensures var c := Commits(diffID, git).value[k];
      c.isHead <==> c.id == TrimSpace(git(RevParseHead).stdout)
  {
    var primary := git(CommitLog(diffID));
    var log := if primary.ok then primary else git(HeadLog);
    CommitInfosAt(LogRecords(log.stdout), TrimSpace(git(RevParseHead).stdout), k);
  }

  /** When the log that answers prints `recs`, getDiffCommits lists them in
      log order, and with distinct hashes at most one of them is HEAD. */
  lemma CommitsOfLog(diffID: string, git: Command -> Run, recs: seq<LogRecord>)
    requires git(RevParseHead).ok
    requires var primary := git(CommitLog(diffID));
      if primary.ok then primary.stdout == FormatLog(recs)
      else git(HeadLog).ok && git(HeadLog).stdout == FormatLog(recs)
    requires AllWellFormed(recs)
    ensures Commits(diffID, git).Success?
    ensures var v := Commits(diffID, git).value;
      |v| == |recs| && forall k :: 0 <= k < |recs| ==> v[k].id == recs[k].id
    ensures var v := Commits(diffID, git).value;
      (forall j, k :: 0 <= j < k < |recs| ==> recs[j].id != recs[k].id) ==>
      forall j, k :: 0 <= j < |v| && 0 <= k < |v| && v[j].isHead && v[k].isHead ==> j == k
  {
    LogRoundTrip(recs);
    var h := TrimSpace(git(RevParseHead).stdout);
    var v := Commits(diffID, git).value;
    assert v == CommitInfos(recs, h);
    forall k | 0 <= k < |recs| ensures v[k].id == recs[k].id && (v[k].isHead <==> recs[k].id == h) {
      CommitInfosAt(recs, h, k);
    }
  }

  /** getDiffCommits: the HEAD hash, then the requested log, falling back
      to the log of HEAD alone. */
  method ListCommits(diffID: string, git: Command -> Run) returns (r: Result<seq<CommitInfo>, string>)
    ensures r == Commits(diffID, git)
  {
    var head := git(RevParseHead);
    if !head.ok {
      return Failure("Failed to get HEAD");
    }
    var headHash := TrimSpace(head.stdout);
    var log := git(CommitLog(diffID));
    if !log.ok {
      log := git(HeadLog);
      if !log.ok {
        return Failure("Failed to get commits");
      }
    }
    var commits := LogCommits(log.stdout, headHash);
    return Success(commits);
  }

  /** The handler's loop over the log lines. */
  method LogCommits(output: string, headHash: string) returns (commits: seq<CommitInfo>)
    ensures commits == CommitInfos(LogRecords(output), headHash)
  {
    var lines := Split(TrimSpace(output), '\n');
    commits := [];
    for i := 0 to |lines|
      invariant commits == CommitInfos(Records(lines[..i]), headHash)
    {
      RecordsStep(lines, i);
      match ParseLogLine(lines[i]) {
        case None =>
        case Some(rec) =>
          ghost var recs := Records(lines[..i]);
          commits := commits + [CommitInfo(rec.id, rec.message, rec.author, rec.timestamp,
                                           rec.id == headHash)];
          assert (recs + [rec])[..|recs|] == recs;
      }
    }
    assert lines[..|lines|] == lines;
  }
}
