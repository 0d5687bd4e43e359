/** getDiffFiles: the files a diff touches, read from
    `git diff --name-status <base>`, each with its own numstat counts, sorted
    by path. */
module DiffFiles {
  import opened Wrappers
  import opened GoStrings
  import opened GoStrconv
  import opened Git
  import opened Numstat

  /** The status the handler reports: "added", "modified" or "deleted". */
  datatype FileStatus = Added | Modified | Deleted

  datatype FileInfo = FileInfo(path: string, status: FileStatus, additions: int, deletions: int)

  /** The status letter of a name-status line: "A" is an added file, "D" a
      deleted one, and every other letter (M, R, C, T, ...) counts as
      modified. */
  function StatusOf(code: string): (r: FileStatus)
    ensures r == Added <==> code == "A"
    ensures r == Deleted <==> code == "D"
    ensures r == Modified <==> code != "A" && code != "D"
  {
    if code == "A" then Added else if code == "D" then Deleted else Modified
  }

  /** The revision the files are compared against: HEAD for the working
      entry, otherwise the parent of the commit. */
  function DiffBase(diffID: string): string {
    if diffID == "working" then "HEAD" else diffID + "^"
  }

  datatype NameStatusLine = NameStatusLine(code: string, path: string)

  /** One name-status line as main.go reads it: split at white space, so
      a path that holds a blank is cut at that blank. */
  function ParseNameStatusAsWritten(line: string): (r: Option<NameStatusLine>)
    ensures r.None? <==> line == "" || |Fields(line)| < 2
  {
    if line == "" then None
    else
      var parts := Fields(line);
      if |parts| < 2 then None else Some(NameStatusLine(parts[0], parts[1]))
  }

  /** One name-status line split at the tab git prints between the status
      and the path, so the whole path is kept. */
  function ParseNameStatus(line: string): (r: Option<NameStatusLine>)
    ensures r.None? <==> line == "" || |Split(line, '\t')| < 2
  {
    if line == "" then None
    else
      var parts := Split(line, '\t');
      if |parts| < 2 then None else Some(NameStatusLine(parts[0], parts[1]))
  }

  /** What git prints for one changed file. */
  function FormatNameStatus(entry: NameStatusLine): string {
    entry.code + "\t" + entry.path
  }

  /** The tab parser reads back every printed line whose status and path
      hold no tab. */
  lemma NameStatusRoundTrip(entry: NameStatusLine)
    requires '\t' !in entry.code && '\t' !in entry.path
    ensures ParseNameStatus(FormatNameStatus(entry)) == Some(entry)
  {
    var line := FormatNameStatus(entry);
    assert line == entry.code + ['\t'] + entry.path;
    SplitAround(entry.code, '\t', entry.path);
    SplitWithout(entry.code, '\t');
    SplitWithout(entry.path, '\t');
  }

  /** For a status and a path without white space the two parsers agree. */
  lemma ParsersAgree(entry: NameStatusLine)
    requires entry.code != [] && NoSpace(entry.code)
    requires entry.path != [] && NoSpace(entry.path)
    ensures ParseNameStatusAsWritten(FormatNameStatus(entry)) == Some(entry)
    ensures ParseNameStatus(FormatNameStatus(entry)) == Some(entry)
  {
    assert IsSpace('\t');
    assert '\t' !in entry.code && '\t' !in entry.path;
    NameStatusRoundTrip(entry);
    var line := FormatNameStatus(entry);
    assert line == entry.code + ['\t'] + entry.path;
    FieldsWordThen(entry.code, '\t', entry.path);
    FieldsJoin([entry.path], '\t');
    assert Join([entry.path], '\t') == entry.path;
  }

  /** A path with a blank: main.go keeps only the part before the blank,
      while the tab parser keeps the whole path. */
  lemma BlankCutsPath(code: string, first: string, rest: string)
    requires code != [] && NoSpace(code) && first != [] && NoSpace(first)
    requires '\t' !in rest
    ensures var line := FormatNameStatus(NameStatusLine(code, first + " " + rest));
      && ParseNameStatusAsWritten(line) == Some(NameStatusLine(code, first))
      && ParseNameStatus(line) == Some(NameStatusLine(code, first + " " + rest))
  {
    var path := first + " " + rest;
    var line := FormatNameStatus(NameStatusLine(code, path));
    assert IsSpace('\t') && IsSpace(' ');
    assert '\t' !in code && '\t' !in first;
    assert '\t' !in path;
    NameStatusRoundTrip(NameStatusLine(code, path));
    assert line == code + ['\t'] + path;
    assert path == first + [' '] + rest;
    FieldsWordThen(code, '\t', path);
    FieldsWordThen(first, ' ', rest);
  }

  /** The file "my file.txt", modified: main.go reports the path "my". */
  lemma PathWithBlankTruncated(line: string)
    requires line == "M\tmy file.txt"
    ensures ParseNameStatusAsWritten(line) == Some(NameStatusLine("M", "my"))
  {
    BlankExample(line);
    ExampleWords();
    BlankCutsPath("M", "my", "file.txt");
  }

  /** The tab parser keeps the whole path "my file.txt". */
  lemma PathWithBlankKept(line: string)
    requires line == "M\tmy file.txt"
    ensures ParseNameStatus(line) == Some(NameStatusLine("M", "my file.txt"))
  {
    BlankExample(line);
    ExampleWords();
    BlankCutsPath("M", "my", "file.txt");
  }

  /** The example line as BlankCutsPath takes it apart. */
  lemma BlankExample(line: string)
    requires line == "M\tmy file.txt"
    ensures '\t' !in "file.txt"
    ensures line == FormatNameStatus(NameStatusLine("M", "my" + " " + "file.txt"))
    ensures "my" + " " + "file.txt" == "my file.txt"
  {
    ExampleWords();
  }

  /** Neither the status nor the first word of the example holds white
      space. */
  lemma ExampleWords()
    ensures NoSpace("M") && NoSpace("my")
  {
    PrintableNotSpace('M');
    PrintableNotSpace('m');
    PrintableNotSpace('y');
  }

  /** The counts of one file from `git diff <base> --numstat -- <path>`: the
      first two white-space separated fields read with Atoi, or 0 and 0 when
      the output has fewer than two fields. */
  function FileCounts(statOutput: string): (r: (int, int))
    ensures |Fields(statOutput)| < 2 ==> r == (0, 0)
  {
    var parts := Fields(statOutput);
    if |parts| >= 2 then (Atoi(parts[0]), Atoi(parts[1])) else (0, 0)
  }

  /** The counts git prints for a text file are read back exactly. */
  lemma FileCountsOfNumstat(a: int, d: int, path: string)
    requires GoInt.InInt64(a) && GoInt.InInt64(d)
    ensures FileCounts(NumstatLine(a, d, path)) == (a, d)
  {
    NumberField(a);
    NumberField(d);
    NumstatFields(FormatInt(a), FormatInt(d), path);
    AtoiFormatInt(a);
    AtoiFormatInt(d);
  }

  /** A binary file ("-" for both counts) counts 0 and 0. */
  lemma FileCountsOfBinary(path: string)
    ensures FileCounts("-\t-\t" + path) == (0, 0)
  {
    BinaryFields(path);
    AtoiLoneSign("-");
  }

  /** The entry of one changed file. */
  function FileOf(git: Command -> Run, base: string, entry: NameStatusLine): FileInfo {
    var counts := FileCounts(git(FileNumstat(base, entry.path)).stdout);
    FileInfo(entry.path, StatusOf(entry.code), counts.0, counts.1)
  }

  /** The entries of the name-status lines that `parse` reads, in output
      order: the fold of the handler's loop, for either line parser. */
  function FilesBy(parse: string -> Option<NameStatusLine>, git: Command -> Run, base: string,
                   lines: seq<string>): (r: seq<FileInfo>)
    ensures |r| <= |lines|
  {
    if lines == [] then []
    else
      var init := FilesBy(parse, git, base, lines[..|lines| - 1]);
      match parse(lines[|lines| - 1])
      case None => init
      case Some(entry) => init + [FileOf(git, base, entry)]
  }

  /** The entries main.go collects: each line read with strings.Fields. */
  function ChangedFiles(git: Command -> Run, base: string, lines: seq<string>): seq<FileInfo> {
    FilesBy(ParseNameStatusAsWritten, git, base, lines)
  }

  /** The entries with each line split at its tab, keeping whole paths. */
  function CorrectedFiles(git: Command -> Run, base: string, lines: seq<string>): seq<FileInfo> {
    FilesBy(ParseNameStatus, git, base, lines)
  }

  /** The entries of a list of name-status lines, in order. */
  function FilesOf(git: Command -> Run, base: string, entries: seq<NameStatusLine>): (r: seq<FileInfo>)
    ensures |r| == |entries|
  {
    if entries == [] then []
    else FilesOf(git, base, entries[..|entries| - 1]) + [FileOf(git, base, entries[|entries| - 1])]
  }

  /** When every line reads as its entry, the fold lists the entries in
      order, with nothing dropped or added. */
  lemma {:induction false} FilesByEntries(
    parse: string -> Option<NameStatusLine>, git: Command -> Run, base: string,
    entries: seq<NameStatusLine>, lines: seq<string>)
    requires |lines| == |entries|
    requires forall k :: 0 <= k < |entries| ==> parse(lines[k]) == Some(entries[k])
    ensures FilesBy(parse, git, base, lines) == FilesOf(git, base, entries)
  {
    if entries != [] {
      var n := |entries| - 1;
      FilesByEntries(parse, git, base, entries[..n], lines[..n]);
    }
  }

  /** With the tab split, the printed lines of `entries` (status and path
      without tabs) yield exactly those entries, in order. */
  lemma CorrectedFilesOfFormatted(
    git: Command -> Run, base: string, entries: seq<NameStatusLine>, lines: seq<string>)
    requires |lines| == |entries|
    requires forall k :: 0 <= k < |entries| ==> lines[k] == FormatNameStatus(entries[k])
    requires forall k :: 0 <= k < |entries| ==> '\t' !in entries[k].code && '\t' !in entries[k].path
    ensures CorrectedFiles(git, base, lines) == FilesOf(git, base, entries)
  {
    forall k | 0 <= k < |entries| ensures ParseNameStatus(lines[k]) == Some(entries[k]) {
      NameStatusRoundTrip(entries[k]);
    }
    FilesByEntries(ParseNameStatus, git, base, entries, lines);
  }

  /** When no status and no path holds white space, main.go's loop and the
      corrected one list the same entries: those git printed, in order. */
  lemma ListedFilesAgree(
    git: Command -> Run, base: string, entries: seq<NameStatusLine>, lines: seq<string>)
    requires |lines| == |entries|
    requires forall k :: 0 <= k < |entries| ==> lines[k] == FormatNameStatus(entries[k])
    requires forall k :: 0 <= k < |entries| ==>
      entries[k].code != [] && NoSpace(entries[k].code) && entries[k].path != [] && NoSpace(entries[k].path)
    ensures ChangedFiles(git, base, lines) == FilesOf(git, base, entries)
    ensures CorrectedFiles(git, base, lines) == FilesOf(git, base, entries)
  {
    forall k | 0 <= k < |entries|
      ensures ParseNameStatusAsWritten(lines[k]) == Some(entries[k])
      ensures ParseNameStatus(lines[k]) == Some(entries[k])
    {
      ParsersAgree(entries[k]);
    }
    FilesByEntries(ParseNameStatusAsWritten, git, base, entries, lines);
    FilesByEntries(ParseNameStatus, git, base, entries, lines);
  }

  /** The modified file "my file.txt": main.go lists it as "my" and asks
      git for the counts of "my"; the corrected loop lists the whole path. */
  lemma ListedPathTruncated(git: Command -> Run, base: string, line: string)
    requires line == "M\tmy file.txt"
    ensures ChangedFiles(git, base, [line]) == [FileOf(git, base, NameStatusLine("M", "my"))]
    ensures CorrectedFiles(git, base, [line]) == [FileOf(git, base, NameStatusLine("M", "my file.txt"))]
  {
    PathWithBlankTruncated(line);
    PathWithBlankKept(line);
    assert [line][..0] == [];
  }

  predicate SortedByPath(files: seq<FileInfo>) {
    forall k, l :: 0 <= k < l < |files| ==> LessEq(files[k].path, files[l].path)
  }

  /** getDiffFiles: fails when `git diff --name-status` fails; otherwise
      the entries main.go reads from its lines (ChangedFiles), sorted by
      path (sort.Slice is not stable, so only the order of the paths is
      promised). */
  method ListFiles(diffID: string, git: Command -> Run) returns (r: Result<seq<FileInfo>, string>)
    ensures r.Failure? <==> !git(NameStatus(DiffBase(diffID))).ok
    ensures r.Failure? ==> r.error == "Failed to get diff files"
    ensures r.Success? ==>
      var output := git(NameStatus(DiffBase(diffID))).stdout;
      && SortedByPath(r.value)
      && multiset(r.value) == multiset(ChangedFiles(git, DiffBase(diffID), Lines(output)))
  {
    var base := DiffBase(diffID);
    var output := git(NameStatus(base));
    if !output.ok {
      return Failure("Failed to get diff files");
    }
    var files := CollectFiles(git, base, output.stdout);
    var a := new FileInfo[|files|](k requires 0 <= k < |files| => files[k]);
    assert a[..] == files;
    SortByPath(a);
    return Success(a[..]);
  }

  /** The handler's loop over the name-status lines, read as main.go reads
      them. */
  method CollectFiles(git: Command -> Run, base: string, output: string) returns (files: seq<FileInfo>)
    ensures files == ChangedFiles(git, base, Lines(output))
  {
    var lines := Lines(output);
    files := [];
    for i := 0 to |lines|
      invariant files == ChangedFiles(git, base, lines[..i])
    {
      assert lines[..i + 1][..i] == lines[..i];
      match ParseNameStatusAsWritten(lines[i]) {
        case None =>
        case Some(entry) =>
          var status := StatusOf(entry.code);
          var counts := FileCounts(git(FileNumstat(base, entry.path)).stdout);
          files := files + [FileInfo(entry.path, status, counts.0, counts.1)];
      }
    }
    assert lines[..|lines|] == lines;
  }

  /** Sorts the entries by path in place (insertion sort). */
  method SortByPath(a: array<FileInfo>)
    modifies a
    ensures SortedByPath(a[..])
    ensures multiset(a[..]) == multiset(old(a[..]))
  {
    if a.Length == 0 {
      return;
    }
    for i := 1 to a.Length
      invariant forall k, l :: 0 <= k < l < i ==> LessEq(a[k].path, a[l].path)
      invariant multiset(a[..]) == multiset(old(a[..]))
    {
      Insert(a, i);
    }
  }

  /** Moves a[i] left past every entry with a greater path, so that a[..i+1]
      is sorted when a[..i] was. */
  method Insert(a: array<FileInfo>, i: int)
    requires 0 < i < a.Length
    requires forall k, l :: 0 <= k < l < i ==> LessEq(a[k].path, a[l].path)
    modifies a
    ensures forall k, l :: 0 <= k < l <= i ==> LessEq(a[k].path, a[l].path)
    ensures multiset(a[..]) == multiset(old(a[..]))
    ensures a[i + 1..] == old(a[i + 1..])
  {
    var j := i;
    while j > 0 && !LessEq(a[j - 1].path, a[j].path)
      invariant 0 <= j <= i
      invariant a[i + 1..] == old(a[i + 1..])
      invariant forall k, l :: 0 <= k < l <= i && k != j && l != j ==> LessEq(a[k].path, a[l].path)
      invariant forall l :: j < l <= i ==> LessEq(a[j].path, a[l].path)
      invariant multiset(a[..]) == multiset(old(a[..]))
    {
      LessEqTotal(a[j - 1].path, a[j].path);
      a[j - 1], a[j] := a[j], a[j - 1];
      j := j - 1;
    }
    if j > 0 {
      forall k | 0 <= k < j - 1 ensures LessEq(a[k].path, a[j].path) {
        LessEqTransitive(a[k].path, a[j - 1].path, a[j].path);
      }
    }
  }
}
