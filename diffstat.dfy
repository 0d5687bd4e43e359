/** parseDiffStat: the totals of `git diff --numstat` output. Each line is
    "<added> <deleted> <path>" (white-space separated); a binary file shows
    "-" for both counts. */
module Numstat {
  import opened GoStrings
  import opened GoInt
  import opened GoStrconv

  datatype Totals = Totals(additions: int, deletions: int, filesCount: int)

  function Plus(a: Totals, b: Totals): Totals {
    Totals(a.additions + b.additions, a.deletions + b.deletions, a.filesCount + b.filesCount)
  }

  /** One count column: "-" (binary file) counts nothing, anything else is
      read with Atoi, so a malformed count is 0. */
  function Count(field: string): (r: int)
    ensures field == "-" ==> r == 0
    ensures field != "-" ==> r == Atoi(field)
  {
    if field == "-" then 0 else Atoi(field)
  }

  /** What a line with the fields `parts` contributes: nothing unless it has
      two fields; then one file and its two counts. */
  function PartsTotals(parts: seq<string>): Totals {
    if |parts| < 2 then Totals(0, 0, 0)
    else Totals(Count(parts[0]), Count(parts[1]), 1)
  }

  /** What one line contributes (an empty line is skipped outright). */
  function LineTotals(line: string): Totals {
    if line == "" then Totals(0, 0, 0) else PartsTotals(Fields(line))
  }

  /** The exact (unbounded) sum of `f` over a list of lines. */
  function SumBy(f: string -> Totals, lines: seq<string>): Totals {
    if lines == [] then Totals(0, 0, 0)
    else Plus(SumBy(f, lines[..|lines| - 1]), f(lines[|lines| - 1]))
  }

  /** The exact (unbounded) totals of a list of numstat lines. */
  function Sum(lines: seq<string>): Totals {
    SumBy(LineTotals, lines)
  }

  function Lines(output: string): seq<string> {
    Split(TrimSpace(output), '\n')
  }

  /** The result of parseDiffStat: the totals of the lines of the trimmed
      output, with the two line totals kept in Go ints (wrapping at 2^63). */
  function DiffStat(output: string): Totals {
    Wrapped(Sum(Lines(output)))
  }

  /** Exact totals as the Go ints that accumulate them hold them. */
  function Wrapped(t: Totals): Totals {
    Totals(Wrap(t.additions), Wrap(t.deletions), t.filesCount)
  }

  /** parseDiffStat: the lines of the trimmed output, accumulated one by one. */
  method ParseDiffStat(output: string) returns (additions: int, deletions: int, filesCount: int)
    ensures Totals(additions, deletions, filesCount) == DiffStat(output)
  {
    var lines := Lines(output);
    additions, deletions, filesCount := AddLines(lines);
  }

  /** parseDiffStat's loop over the lines, in order. */
  method AddLines(lines: seq<string>) returns (additions: int, deletions: int, filesCount: int)
    ensures Totals(additions, deletions, filesCount) == Wrapped(Sum(lines))
  {
    additions, deletions, filesCount := 0, 0, 0;
    var i := 0;
    SumNone(lines);
    while i < |lines|
      invariant 0 <= i <= |lines|
      invariant Totals(additions, deletions, filesCount) == Wrapped(Sum(lines[..i]))
      invariant InInt64(additions) && InInt64(deletions)
    {
      ghost var before := Totals(additions, deletions, filesCount);
      additions, deletions, filesCount := AddLine(lines[i], additions, deletions, filesCount);
      RunningTotals(lines, i, before, Totals(additions, deletions, filesCount));
      i := i + 1;
    }
    SumWhole(lines);
  }

  /** The body of parseDiffStat's loop: the running totals after one line. */
  method AddLine(line: string, additions: int, deletions: int, filesCount: int)
    returns (additions': int, deletions': int, filesCount': int)
    requires InInt64(additions) && InInt64(deletions)
    ensures var t := LineTotals(line);
      additions' == Wrap(additions + t.additions) && deletions' == Wrap(deletions + t.deletions)
      && filesCount' == filesCount + t.filesCount
  {
    additions', deletions', filesCount' := additions, deletions, filesCount;
    if line == "" {
      return;
    }
    var parts := Fields(line);
    additions', deletions', filesCount' := AddFields(parts, additions, deletions, filesCount);
  }

  /** The fields of one non-empty line added to the running totals. */
  method AddFields(parts: seq<string>, additions: int, deletions: int, filesCount: int)
    returns (additions': int, deletions': int, filesCount': int)
    requires InInt64(additions) && InInt64(deletions)
    ensures var t := PartsTotals(parts);
      additions' == Wrap(additions + t.additions) && deletions' == Wrap(deletions + t.deletions)
      && filesCount' == filesCount + t.filesCount
  {
    additions', deletions', filesCount' := additions, deletions, filesCount;
    if |parts| >= 2 {
      if parts[0] != "-" {
        var add := Atoi(parts[0]);
        additions' := Wrap(additions' + add);
      }
      AddCount(additions, parts[0], additions');
      if parts[1] != "-" {
        var del := Atoi(parts[1]);
        deletions' := Wrap(deletions' + del);
      }
      AddCount(deletions, parts[1], deletions');
      filesCount' := filesCount' + 1;
    }
  }

  /** Adding one count column to a running int total. */
  lemma AddCount(total: int, field: string, total': int)
    requires InInt64(total)
    requires total' == if field != "-" then Wrap(total + Atoi(field)) else total
    ensures total' == Wrap(total + Count(field))
  {
  }

  lemma SumNone(lines: seq<string>)
    ensures Wrapped(Sum(lines[..0])) == Totals(0, 0, 0)
  {
    assert lines[..0] == [];
  }

  lemma SumWhole(lines: seq<string>)
    ensures Sum(lines[..|lines|]) == Sum(lines)
  {
    assert lines[..|lines|] == lines;
  }

  /** The running totals after one more line are the wrapped totals of the
      longer prefix. */
  lemma RunningTotals(lines: seq<string>, i: int, before: Totals, after: Totals)
    requires 0 <= i < |lines|
    requires before == Wrapped(Sum(lines[..i]))
    requires var t := LineTotals(lines[i]);
      after == Totals(Wrap(before.additions + t.additions), Wrap(before.deletions + t.deletions),
                      before.filesCount + t.filesCount)
    ensures after == Wrapped(Sum(lines[..i + 1]))
  {
    SumStep(lines, i);
    WrappedStep(Sum(lines[..i]), LineTotals(lines[i]), before, after);
  }

  /** Adding a line's totals to the Go ints keeps them the wrapped exact totals. */
  lemma WrappedStep(s: Totals, t: Totals, before: Totals, after: Totals)
    requires before == Wrapped(s)
    requires after == Totals(Wrap(before.additions + t.additions), Wrap(before.deletions + t.deletions),
                             before.filesCount + t.filesCount)
    ensures after == Wrapped(Plus(s, t))
  {
    WrapAdd(s.additions, t.additions);
    WrapAdd(s.deletions, t.deletions);
  }

  /** The totals of one more line. */
  lemma SumStep(lines: seq<string>, i: int)
    requires 0 <= i < |lines|
    ensures Sum(lines[..i + 1]) == Plus(Sum(lines[..i]), LineTotals(lines[i]))
  {
    assert lines[..i + 1][..i] == lines[..i];
  }

  /** Totals of concatenated line lists add up. */
  lemma {:induction false} SumByAppend(f: string -> Totals, xs: seq<string>, ys: seq<string>)
    ensures SumBy(f, xs + ys) == Plus(SumBy(f, xs), SumBy(f, ys))
    decreases |ys|
  {
    if ys == [] {
      assert xs + ys == xs;
    } else {
      var zs := xs + ys;
      assert zs[..|zs| - 1] == xs + ys[..|ys| - 1];
      assert zs[|zs| - 1] == ys[|ys| - 1];
      SumByAppend(f, xs, ys[..|ys| - 1]);
    }
  }

  lemma SumAppend(xs: seq<string>, ys: seq<string>)
    ensures Sum(xs + ys) == Plus(Sum(xs), Sum(ys))
  {
    SumByAppend(LineTotals, xs, ys);
  }

  lemma SumOne(line: string)
    ensures Sum([line]) == LineTotals(line)
  {
    assert [line][..0] == [];
    assert SumBy(LineTotals, [line]) == Plus(SumBy(LineTotals, []), LineTotals(line));
  }

  lemma SumCons(line: string, rest: seq<string>)
    ensures Sum([line] + rest) == Plus(LineTotals(line), Sum(rest))
  {
    SumAppend([line], rest);
    SumOne(line);
  }

  /** A leading white-space character changes no line's totals. */
  lemma LineTotalsSpaceCons(w: char, line: string)
    requires IsSpace(w)
    ensures LineTotals([w] + line) == LineTotals(line)
  {
    FieldsSpaceCons(w, line);
    if line == "" {
      assert Fields([]) == [];
    }
  }

  /** A trailing white-space character changes no line's totals. */
  lemma LineTotalsSpaceSnoc(line: string, w: char)
    requires IsSpace(w)
    ensures LineTotals(line + [w]) == LineTotals(line)
  {
    FieldsSpaceSnoc(line, w);
    if line == "" {
      assert Fields([]) == [];
      assert [] + [w] == [w];
    }
  }

  /** The totals of the lines of `s` do not depend on its leading white space. */
  lemma {:induction false} SumTrimLeft(s: string)
    ensures Sum(Split(TrimLeft(s), '\n')) == Sum(Split(s, '\n'))
    decreases |s|
  {
    if |s| > 0 && IsSpace(s[0]) {
      SumTrimLeft(s[1..]);
      var rest := Split(s[1..], '\n');
      if s[0] == '\n' {
        assert Split(s, '\n') == [""] + rest;
        SumCons("", rest);
      } else {
        assert Split(s, '\n') == [[s[0]] + rest[0]] + rest[1..];
        assert rest == [rest[0]] + rest[1..];
        SumCons([s[0]] + rest[0], rest[1..]);
        SumCons(rest[0], rest[1..]);
        LineTotalsSpaceCons(s[0], rest[0]);
      }
    }
  }

  /** ... nor on its trailing white space. */
  lemma {:induction false} SumTrimRight(s: string)
    ensures Sum(Split(TrimRight(s), '\n')) == Sum(Split(s, '\n'))
    decreases |s|
  {
    if |s| > 0 && IsSpace(s[|s| - 1]) {
      var t := s[..|s| - 1];
      assert s == t + [s[|s| - 1]];
      SumTrimRight(t);
      SumSpaceSnoc(t, s[|s| - 1]);
    }
  }

  /** A trailing white-space character changes no totals: a line break only
      adds an empty line, any other space character extends the last line. */
  lemma SumSpaceSnoc(t: string, w: char)
    requires IsSpace(w)
    ensures Sum(Split(t + [w], '\n')) == Sum(Split(t, '\n'))
  {
    var r := Split(t, '\n');
    if w == '\n' {
      SplitAround(t, '\n', "");
      assert t + [w] + "" == t + [w];
      SumAppend(r, [""]);
      SumOne("");
    } else {
      SplitSnoc(t, '\n', w);
      var n := |r|;
      var last := r[n - 1];
      assert r == r[..n - 1] + [last];
      SumAppend(r[..n - 1], [last]);
      SumAppend(r[..n - 1], [last + [w]]);
      SumOne(last);
      SumOne(last + [w]);
      LineTotalsSpaceSnoc(last, w);
    }
  }

  /** Trimming the whole output first changes nothing: every line of the
      output counts as if it had been read untrimmed. */
  lemma SumIgnoresTrim(output: string)
    ensures Sum(Lines(output)) == Sum(Split(output, '\n'))
  {
    SumTrimLeft(output);
    SumTrimRight(TrimLeft(output));
  }

  /** Blank output (no changes) gives zero files and zero lines. */
  lemma DiffStatOfBlank(output: string)
    requires AllSpace(output)
    ensures DiffStat(output) == Totals(0, 0, 0)
  {
    assert Lines(output) == [""];
    SumOne("");
  }

  /** A count that does not start like a number (a letter, a stray
      character, nothing at all) contributes 0. */
  lemma NonNumericCount(field: string)
    requires |field| == 0 || !(IsDigit(field[0]) || field[0] == '-' || field[0] == '+')
    ensures Count(field) == 0
  {
    AtoiNotNumeric(field);
  }

  /** A line names a file when it has at least two fields. */
  predicate IsFileLine(line: string) {
    line != "" && |Fields(line)| >= 2
  }

  /** The number of lines that name a file. */
  function FileLineCount(lines: seq<string>): nat {
    if lines == [] then 0
    else FileLineCount(lines[..|lines| - 1]) + (if IsFileLine(lines[|lines| - 1]) then 1 else 0)
  }

  lemma LineFiles(line: string)
    ensures LineTotals(line).filesCount == if IsFileLine(line) then 1 else 0
  {
  }

  /** filesCount counts exactly the lines with at least two fields. */
  lemma {:induction false} SumFilesCount(lines: seq<string>)
    ensures Sum(lines).filesCount == FileLineCount(lines)
  {
    if lines != [] {
      var n := |lines| - 1;
      SumFilesCount(lines[..n]);
      SumStep(lines, n);
      assert lines[..n + 1] == lines;
      LineFiles(lines[n]);
    }
  }

  /** parseDiffStat's filesCount is the number of non-empty lines of the
      output with at least two white-space separated fields. */
  lemma FilesCountIsFileLines(output: string)
    ensures DiffStat(output).filesCount == FileLineCount(Lines(output))
  {
    SumFilesCount(Lines(output));
  }

  /** The numstat line git writes for a file with `a` added and `d`
      deleted lines: the counts in decimal, a tab, and the path. */
  function NumstatLine(a: int, d: int, path: string): string {
    FormatInt(a) + "\t" + FormatInt(d) + "\t" + path
  }

  /** Reading a numstat line back gives its counts and one file. */
  lemma NumstatLineTotals(a: int, d: int, path: string)
    requires InInt64(a) && InInt64(d)
    ensures LineTotals(NumstatLine(a, d, path)) == Totals(a, d, 1)
  {
    var fa, fd := FormatInt(a), FormatInt(d);
    NumberField(a);
    NumberField(d);
    NumstatFields(fa, fd, path);
    AtoiFormatInt(a);
    AtoiFormatInt(d);
    TwoCountColumns(Fields(NumstatLine(a, d, path)), fa, fd, Fields(path));
  }

  /** A decimal number is one field and never the binary marker. */
  lemma NumberField(n: int)
    ensures FormatInt(n) != [] && NoSpace(FormatInt(n)) && FormatInt(n) != "-"
  {
    var f := FormatInt(n);
    forall i | 0 <= i < |f| ensures !IsSpace(f[i]) {
      PrintableNotSpace(f[i]);
    }
    assert IsDigit(f[|f| - 1]);
  }

  /** The two count columns are the first two fields, whatever the path
      holds (git prints a path with blanks unquoted). */
  lemma NumstatFields(fa: string, fd: string, path: string)
    requires fa != [] && NoSpace(fa) && fd != [] && NoSpace(fd)
    ensures Fields(fa + "\t" + fd + "\t" + path) == [fa, fd] + Fields(path)
  {
    var tail := fd + ['\t'] + path;
    assert fa + "\t" + fd + "\t" + path == fa + ['\t'] + tail;
    assert IsSpace('\t');
    FieldsWordThen(fa, '\t', tail);
    FieldsWordThen(fd, '\t', path);
  }

  lemma TwoCountColumns(parts: seq<string>, fa: string, fd: string, rest: seq<string>)
    requires parts == [fa, fd] + rest
    requires fa != "-" && fd != "-"
    ensures PartsTotals(parts) == Totals(Atoi(fa), Atoi(fd), 1)
  {
  }

  /** A "-" column followed by a tab is one field. */
  lemma DashField(rest: string)
    ensures Fields("-\t" + rest) == ["-"] + Fields(rest)
  {
    assert NoSpace("-") by { assert !IsSpace('-'); }
    assert "-\t" + rest == "-" + ['\t'] + rest;
    FieldsWordThen("-", '\t', rest);
  }

  /** A binary file line has two "-" columns and then the path's fields. */
  lemma BinaryFields(path: string)
    ensures Fields("-\t-\t" + path) == ["-", "-"] + Fields(path)
  {
    assert "-\t-\t" + path == "-\t" + ("-\t" + path) by { DashesAssociate(path); }
    DashField(path);
    DashField("-\t" + path);
    ConsTwice("-", Fields(path));
  }

  lemma DashesAssociate(path: string)
    ensures "-\t-\t" + path == "-\t" + ("-\t" + path)
  {
  }

  lemma ConsTwice<T>(x: T, xs: seq<T>)
    ensures [x] + ([x] + xs) == [x, x] + xs
  {
  }

  /** A binary file line counts one file and adds no lines. */
  lemma BinaryLine(path: string)
    ensures LineTotals("-\t-\t" + path) == Totals(0, 0, 1)
  {
    BinaryFields(path);
    TwoDashColumns(Fields("-\t-\t" + path), Fields(path));
  }

  lemma TwoDashColumns(parts: seq<string>, rest: seq<string>)
    requires parts == ["-", "-"] + rest
    ensures PartsTotals(parts) == Totals(0, 0, 1)
  {
  }

  /** The exact totals of two outputs joined by a line break add up. */
  lemma SumLinesAdditive(a: string, b: string)
    ensures Sum(Lines(a + "\n" + b)) == Plus(Sum(Lines(a)), Sum(Lines(b)))
  {
    SumIgnoresTrim(a + "\n" + b);
    SumIgnoresTrim(a);
    SumIgnoresTrim(b);
    SplitLines(a, b);
    SumAppend(Split(a, '\n'), Split(b, '\n'));
  }

  /** parseDiffStat is additive: the totals of two outputs joined by a line
      break are the sums of their totals, in int arithmetic. */
  lemma DiffStatAdditive(a: string, b: string)
    ensures var t := DiffStat(a + "\n" + b); var ta := DiffStat(a); var tb := DiffStat(b);
      t == Totals(Wrap(ta.additions + tb.additions), Wrap(ta.deletions + tb.deletions),
                  ta.filesCount + tb.filesCount)
  {
    SumLinesAdditive(a, b);
    WrappedPlus(Sum(Lines(a + "\n" + b)), Sum(Lines(a)), Sum(Lines(b)));
  }

  /** Wrapping exact totals commutes with adding them. */
  lemma WrappedPlus(t: Totals, sa: Totals, sb: Totals)
    requires t == Plus(sa, sb)
    ensures Wrapped(t) == Totals(Wrap(Wrapped(sa).additions + Wrapped(sb).additions),
                                 Wrap(Wrapped(sa).deletions + Wrapped(sb).deletions),
                                 sa.filesCount + sb.filesCount)
  {
    WrapAddBoth(sa.additions, sb.additions);
    WrapAddBoth(sa.deletions, sb.deletions);
  }

  /** The lines of two outputs joined by a line break. */
  lemma SplitLines(a: string, b: string)
    ensures Split(a + "\n" + b, '\n') == Split(a, '\n') + Split(b, '\n')
  {
    assert a + "\n" + b == a + ['\n'] + b;
    SplitAround(a, '\n', b);
  }
}
