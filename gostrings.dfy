/** Go's `strings` and `unicode` behaviour that the handlers in main.go rely on:
    TrimSpace, Split with a one-character separator, Join, Fields, and the
    byte-wise ordering of strings used by `<`. A Go string is modelled as the
    sequence of code points it decodes to. */
module GoStrings {

  /** Whether `c` lies in one of the inclusive code-point ranges `ranges`. */
  predicate InRanges(c: char, ranges: seq<(char, char)>) {
    |ranges| > 0 && ((ranges[0].0 <= c <= ranges[0].1) || InRanges(c, ranges[1..]))
  }

  /** The code points with the Unicode White_Space property, as ranges in
      ascending order. */
  const WhiteSpace: seq<(char, char)> :=
    [('\t', '\r'), (' ', ' '), ('\U{85}', '\U{85}'), ('\U{A0}', '\U{A0}'),
     ('\U{1680}', '\U{1680}'), ('\U{2000}', '\U{200A}'), ('\U{2028}', '\U{2029}'),
     ('\U{202F}', '\U{202F}'), ('\U{205F}', '\U{205F}'), ('\U{3000}', '\U{3000}')]

  /** unicode.IsSpace. */
  predicate IsSpace(c: char) {
    InRanges(c, WhiteSpace)
  }

  /** No range that starts above `c` holds it. */
  lemma {:induction false} BelowRanges(c: char, ranges: seq<(char, char)>)
    requires forall k :: 0 <= k < |ranges| ==> c < ranges[k].0
    ensures !InRanges(c, ranges)
  {
    if |ranges| > 0 {
      BelowRanges(c, ranges[1..]);
    }
  }

  /** Printable ASCII characters other than the blank are not white space. */
  lemma PrintableNotSpace(c: char)
    requires '!' <= c <= '~'
    ensures !IsSpace(c)
  {
    var w := WhiteSpace;
    BelowRanges(c, w[2..]);
    assert w[1..][1..] == w[2..];
    assert !InRanges(c, w[1..]);
  }

  predicate AllSpace(s: string) {
    forall i :: 0 <= i < |s| ==> IsSpace(s[i])
  }

  predicate NoSpace(s: string) {
    forall i :: 0 <= i < |s| ==> !IsSpace(s[i])
  }

  /** Leading white space removed. */
  function TrimLeft(s: string): (r: string)
    ensures |r| <= |s|
  {
    if |s| > 0 && IsSpace(s[0]) then TrimLeft(s[1..]) else s
  }

  /** TrimLeft removes a blank prefix and leaves a suffix that is empty or
      starts with a non-space character. */
  lemma {:induction false} TrimLeftSuffix(s: string)
    ensures var r := TrimLeft(s);
      r == s[|s| - |r|..] && AllSpace(s[..|s| - |r|]) && (r == [] || !IsSpace(r[0]))
  {
    if |s| > 0 && IsSpace(s[0]) {
      TrimLeftSuffix(s[1..]);
      var r := TrimLeft(s[1..]);
      assert s[..|s| - |r|] == [s[0]] + s[1..][..|s| - 1 - |r|];
    }
  }

  /** Trailing white space removed. */
  function TrimRight(s: string): (r: string)
    ensures |r| <= |s|
  {
    if |s| > 0 && IsSpace(s[|s| - 1]) then TrimRight(s[..|s| - 1]) else s
  }

  /** TrimRight removes a blank suffix and leaves a prefix that is empty or
      ends with a non-space character. */
  lemma {:induction false} TrimRightPrefix(s: string)
    ensures var r := TrimRight(s);
      r == s[..|r|] && AllSpace(s[|r|..]) && (r == [] || !IsSpace(r[|r| - 1]))
  {
    if |s| > 0 && IsSpace(s[|s| - 1]) {
      TrimRightPrefix(s[..|s| - 1]);
      var r := TrimRight(s[..|s| - 1]);
      assert s[|r|..] == s[..|s| - 1][|r|..] + [s[|s| - 1]];
    }
  }

  /** strings.TrimSpace: the part of `s` between its leading and its
      trailing white space; empty exactly when `s` is blank. */
  function TrimSpace(s: string): (r: string)
    ensures r == [] || (!IsSpace(r[0]) && !IsSpace(r[|r| - 1]))
    ensures r == [] <==> AllSpace(s)
  {
    var l := TrimLeft(s);
    TrimLeftSuffix(s);
    var r := TrimRight(l);
    TrimRightPrefix(l);
    assert r == [] ==> s == s[..|s| - |l|] + l;
    r
  }

  /** strings.Split(s, string(c)): the pieces of `s` between occurrences of
      `c`; there is always at least one piece and no piece holds `c`. */
  function Split(s: string, c: char): (r: seq<string>)
    ensures |r| >= 1
    ensures forall i :: 0 <= i < |r| ==> c !in r[i]
  {
    if |s| == 0 then [""]
    else if s[0] == c then [""] + Split(s[1..], c)
    else
      var rest := Split(s[1..], c);
      [[s[0]] + rest[0]] + rest[1..]
  }

  /** strings.Join(xs, string(c)). */
  function Join(xs: seq<string>, c: char): string {
    if |xs| == 0 then ""
    else if |xs| == 1 then xs[0]
    else xs[0] + [c] + Join(xs[1..], c)
  }

  /** Splitting at a separator splits the two sides independently. */
  lemma {:induction false} SplitAround(a: string, c: char, b: string)
    ensures Split(a + [c] + b, c) == Split(a, c) + Split(b, c)
  {
    var s := a + [c] + b;
    SplitCons(s, c);
    if |a| == 0 {
      assert s[0] == c && s[1..] == b;
    } else {
      assert s[0] == a[0] && s[1..] == a[1..] + [c] + b;
      SplitAround(a[1..], c, b);
      SplitCons(a, c);
      if a[0] != c {
        MergeHead(a[0], Split(a[1..], c), Split(b, c));
      }
    }
  }

  lemma MergeHead(x: char, ra: seq<string>, rb: seq<string>)
    requires |ra| >= 1
    ensures var rest := ra + rb; [[x] + rest[0]] + rest[1..] == ([[x] + ra[0]] + ra[1..]) + rb
  {
    var rest := ra + rb;
    assert rest[0] == ra[0] && rest[1..] == ra[1..] + rb;
  }

  /** A string without the separator is a single piece. */
  lemma {:induction false} SplitWithout(s: string, c: char)
    requires c !in s
    ensures Split(s, c) == [s]
  {
    if |s| > 0 {
      assert c !in s[1..];
      SplitWithout(s[1..], c);
      assert [s[0]] + s[1..] == s;
    }
  }

  lemma JoinCons(x: string, xs: seq<string>, c: char)
    requires |xs| >= 1
    ensures Join([x] + xs, c) == x + [c] + Join(xs, c)
  {
    assert ([x] + xs)[1..] == xs;
  }

  /** Split undoes Join when no piece holds the separator. */
  lemma {:induction false} SplitJoin(xs: seq<string>, c: char)
    requires |xs| >= 1
    requires forall i :: 0 <= i < |xs| ==> c !in xs[i]
    ensures Split(Join(xs, c), c) == xs
  {
    if |xs| == 1 {
      SplitWithout(xs[0], c);
    } else {
      SplitJoin(xs[1..], c);
      SplitAround(xs[0], c, Join(xs[1..], c));
      SplitWithout(xs[0], c);
      assert xs == [xs[0]] + xs[1..];
    }
  }

  /** `Split` on a non-empty string, one step. */
  lemma SplitCons(s: string, c: char)
    requires |s| > 0
    ensures var rest := Split(s[1..], c);
      Split(s, c) == if s[0] == c then [""] + rest else [[s[0]] + rest[0]] + rest[1..]
  {
  }

  /** Appends `w` to the last string of a non-empty list. */
  function ExtendLast(r: seq<string>, w: char): seq<string>
    requires |r| >= 1
  {
    r[..|r| - 1] + [r[|r| - 1] + [w]]
  }

  lemma ExtendLastCons(h: string, r: seq<string>, w: char)
    requires |r| >= 1
    ensures ExtendLast([h] + r, w) == [h] + ExtendLast(r, w)
  {
    assert ([h] + r)[..|r|] == [h] + r[..|r| - 1];
  }

  lemma ExtendLastHead(x: char, r: seq<string>, w: char)
    requires |r| >= 1
    ensures var e := ExtendLast(r, w);
      [[x] + e[0]] + e[1..] == ExtendLast([[x] + r[0]] + r[1..], w)
  {
    if |r| == 1 {
      assert [x] + (r[0] + [w]) == ([x] + r[0]) + [w];
    } else {
      ExtendLastCons([x] + r[0], r[1..], w);
      assert ExtendLast(r, w) == [r[0]] + ExtendLast(r[1..], w) by {
        ExtendLastCons(r[0], r[1..], w);
        assert [r[0]] + r[1..] == r;
      }
    }
  }

  /** Appending a character other than the separator extends the last piece. */
  lemma {:induction false} SplitSnoc(s: string, c: char, w: char)
    requires w != c
    ensures Split(s + [w], c) == ExtendLast(Split(s, c), w)
  {
    if |s| == 0 {
      SplitCons([w], c);
      assert [w][1..] == [] && Split([], c) == [""];
      assert [w] + "" == [w] && "" + [w] == [w];
      assert Split([w], c) == [[w]];
      assert [""][..0] == [];
      assert ExtendLast([""], w) == [[w]];
      assert s + [w] == [w];
    } else {
      var s' := s + [w];
      assert s'[0] == s[0] && s'[1..] == s[1..] + [w];
      SplitSnoc(s[1..], c, w);
      SplitCons(s, c);
      SplitCons(s', c);
      var r1 := Split(s[1..], c);
      if s[0] == c {
        ExtendLastCons("", r1, w);
      } else {
        ExtendLastHead(s[0], r1, w);
      }
    }
  }

  /** The longest prefix of `s` that holds no white space. */
  function Word(s: string): (r: string)
    ensures |r| <= |s|
  {
    if |s| == 0 || IsSpace(s[0]) then [] else [s[0]] + Word(s[1..])
  }

  /** A string that starts with a non-space character starts a word. */
  lemma WordNonEmpty(s: string)
    requires |s| > 0 && !IsSpace(s[0])
    ensures |Word(s)| > 0
  {
  }

  /** strings.Fields: the maximal runs of non-space characters, in order. */
  function Fields(s: string): seq<string>
    decreases |s|
  {
    var t := TrimLeft(s);
    if t == [] then []
    else
      var w := Word(t);
      TrimLeftSuffix(s);
      WordNonEmpty(t);
      [w] + Fields(t[|w|..])
  }

  /** Fields ignores leading white space ... */
  lemma FieldsSpaceCons(w: char, x: string)
    requires IsSpace(w)
    ensures Fields([w] + x) == Fields(x)
  {
    assert ([w] + x)[1..] == x;
  }

  lemma {:induction false} TrimLeftSnoc(x: string, w: char)
    requires IsSpace(w)
    ensures TrimLeft(x + [w]) == if TrimLeft(x) == [] then [] else TrimLeft(x) + [w]
  {
    if |x| > 0 {
      assert (x + [w])[1..] == x[1..] + [w];
      if IsSpace(x[0]) {
        TrimLeftSnoc(x[1..], w);
      }
    }
  }

  lemma {:induction false} WordSnocSpace(t: string, w: char)
    requires IsSpace(w)
    ensures Word(t + [w]) == Word(t)
  {
    if |t| > 0 {
      assert (t + [w])[1..] == t[1..] + [w];
      WordSnocSpace(t[1..], w);
    }
  }

  /** ... and trailing white space. */
  lemma {:induction false} FieldsSpaceSnoc(x: string, w: char)
    requires IsSpace(w)
    ensures Fields(x + [w]) == Fields(x)
    decreases |x|
  {
    TrimLeftSnoc(x, w);
    var t := TrimLeft(x);
    if t != [] {
      WordSnocSpace(t, w);
      var n := |Word(t)|;
      assert (t + [w])[n..] == t[n..] + [w];
      FieldsSpaceSnoc(t[n..], w);
    }
  }

  lemma {:induction false} WordStops(x: string, d: char, rest: string)
    requires NoSpace(x) && IsSpace(d)
    ensures Word(x + [d] + rest) == x
  {
    var s := x + [d] + rest;
    if |x| > 0 {
      assert s[0] == x[0] && s[1..] == x[1..] + [d] + rest;
      WordStops(x[1..], d, rest);
      assert x == [x[0]] + x[1..];
    } else {
      assert s[0] == d;
    }
  }

  lemma FieldsWordThen(x: string, d: char, rest: string)
    requires x != [] && NoSpace(x) && IsSpace(d)
    ensures Fields(x + [d] + rest) == [x] + Fields(rest)
  {
    var s := x + [d] + rest;
    assert s[0] == x[0];
    assert TrimLeft(s) == s;
    WordStops(x, d, rest);
    assert s[|x|..] == [d] + rest;
    FieldsSpaceCons(d, rest);
  }

  /** Fields recovers words joined by white space (git's tab- and
      space-separated output columns). */
  lemma {:induction false} FieldsJoin(ws: seq<string>, d: char)
    requires IsSpace(d)
    requires forall i :: 0 <= i < |ws| ==> ws[i] != [] && NoSpace(ws[i])
    ensures Fields(Join(ws, d)) == ws
  {
    if |ws| == 1 {
      var x := ws[0];
      FieldsWordThen(x, d, []);
      FieldsSpaceSnoc(x, d);
      assert x + [d] + [] == x + [d];
    } else if |ws| > 1 {
      var x := ws[0];
      JoinCons(x, ws[1..], d);
      assert Join(ws, d) == x + [d] + Join(ws[1..], d) by { assert ws == [x] + ws[1..]; }
      FieldsWordThen(x, d, Join(ws[1..], d));
      FieldsJoin(ws[1..], d);
      assert ws == [x] + ws[1..];
    }
  }

  predicate HasPrefix(s: string, prefix: string) {
    |prefix| <= |s| && s[..|prefix|] == prefix
  }

  /** Go's `a <= b` on strings: lexicographic by code point, which is the
      byte-wise order of their UTF-8 encodings. */
  predicate LessEq(a: string, b: string) {
    |a| == 0 || (|b| > 0 && (a[0] < b[0] || (a[0] == b[0] && LessEq(a[1..], b[1..]))))
  }

  lemma {:induction false} LessEqTotal(a: string, b: string)
    ensures LessEq(a, b) || LessEq(b, a)
  {
    if |a| > 0 && |b| > 0 && a[0] == b[0] {
      LessEqTotal(a[1..], b[1..]);
    }
  }

  lemma {:induction false} LessEqTransitive(a: string, b: string, c: string)
    requires LessEq(a, b) && LessEq(b, c)
    ensures LessEq(a, c)
  {
    if |a| > 0 && a[0] == b[0] && b[0] == c[0] {
      LessEqTransitive(a[1..], b[1..], c[1..]);
    }
  }

  /** TrimSpace leaves a string that neither starts nor ends with white
      space unchanged. */
  lemma TrimSpaceNoop(s: string)
    requires s == [] || (!IsSpace(s[0]) && !IsSpace(s[|s| - 1]))
    ensures TrimSpace(s) == s
  {
    assert TrimLeft(s) == s;
    assert TrimRight(s) == s;
  }

  /** A character that is neither the separator nor in any piece is not in
      the joined string. */
  lemma {:induction false} JoinWithout(xs: seq<string>, c: char, d: char)
    requires c != d
    requires forall i :: 0 <= i < |xs| ==> d !in xs[i]
    ensures d !in Join(xs, c)
  {
    if |xs| > 1 {
      JoinWithout(xs[1..], c, d);
    }
  }

  /** A join starts with its first piece. */
  lemma JoinFirst(xs: seq<string>, c: char)
    requires |xs| >= 1 && xs[0] != []
    ensures |Join(xs, c)| > 0 && Join(xs, c)[0] == xs[0][0]
  {
    if |xs| > 1 {
      assert Join(xs, c) == xs[0] + ([c] + Join(xs[1..], c));
    }
  }

  /** A join ends with its last piece. */
  lemma {:induction false} JoinLast(xs: seq<string>, c: char)
    requires |xs| >= 1 && xs[|xs| - 1] != []
    ensures var j := Join(xs, c); var l := xs[|xs| - 1];
      |j| > 0 && j[|j| - 1] == l[|l| - 1]
  {
    if |xs| > 1 {
      JoinLast(xs[1..], c);
    }
  }
}
