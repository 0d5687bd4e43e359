/** Go's `path/filepath` on a Unix system, as far as validateRepoPath uses
    it: IsAbs, Join, Abs and the lexical Clean of an absolute path.

    A cleaned absolute path is "/" followed by its names joined with "/";
    Clean walks the elements of the path from the root, skipping empty and
    "." elements, going up one name for "..", and never going above the
    root ("/.." is "/"). */
module FilePath {
  import opened GoStrings

  /** filepath.IsAbs on Unix. */
  predicate IsAbs(p: string) {
    |p| > 0 && p[0] == '/'
  }

  /** A name that a cleaned path can hold. */
  predicate IsName(n: string) {
    n != "" && n != "." && n != ".." && '/' !in n
  }

  predicate Canonical(names: seq<string>) {
    forall i :: 0 <= i < |names| ==> IsName(names[i])
  }

  /** One element of the walk that Clean makes from the root. */
  function Step(at: seq<string>, element: string): (r: seq<string>)
    requires Canonical(at) && '/' !in element
    ensures Canonical(r)
    ensures element == ".." ==> r == if at == [] then [] else at[..|at| - 1]
    ensures IsName(element) ==> r == at + [element]
    ensures element == "" || element == "." ==> r == at
  {
    if element == "" || element == "." then at
    else if element == ".." then (if |at| > 0 then at[..|at| - 1] else at)
    else at + [element]
  }

  predicate NoSlash(elements: seq<string>) {
    forall i :: 0 <= i < |elements| ==> '/' !in elements[i]
  }

  /** The names reached by walking `elements` from the names `at`. */
  function Walk(at: seq<string>, elements: seq<string>): (r: seq<string>)
    requires Canonical(at) && NoSlash(elements)
    ensures Canonical(r)
    decreases |elements|
  {
    if elements == [] then at else Walk(Step(at, elements[0]), elements[1..])
  }

  /** Walking two lists of elements is walking the first, then the second. */
  lemma {:induction false} WalkAppend(at: seq<string>, xs: seq<string>, ys: seq<string>)
    requires Canonical(at) && NoSlash(xs) && NoSlash(ys)
    ensures NoSlash(xs + ys)
    ensures Walk(at, xs + ys) == Walk(Walk(at, xs), ys)
    decreases |xs|
  {
    assert NoSlash(xs + ys) by {
      forall i | 0 <= i < |xs + ys| ensures '/' !in (xs + ys)[i] {
        if i < |xs| { assert (xs + ys)[i] == xs[i]; } else { assert (xs + ys)[i] == ys[i - |xs|]; }
      }
    }
    if xs != [] {
      assert (xs + ys)[0] == xs[0] && (xs + ys)[1..] == xs[1..] + ys;
      WalkAppend(Step(at, xs[0]), xs[1..], ys);
    } else {
      assert xs + ys == ys;
    }
  }

  /** Walking plain names descends into each of them. */
  lemma {:induction false} WalkNames(at: seq<string>, names: seq<string>)
    requires Canonical(at) && Canonical(names)
    ensures NoSlash(names)
    ensures Walk(at, names) == at + names
    decreases |names|
  {
    if names != [] {
      WalkNames(at + [names[0]], names[1..]);
      assert at + [names[0]] + names[1..] == at + names;
    }
  }

  /** The names of the cleaned form of an absolute path. */
  function Names(p: string): (r: seq<string>)
    requires IsAbs(p)
    ensures Canonical(r)
  {
    Walk([], Split(p, '/'))
  }

  /** The absolute path whose names are `names`. */
  function Render(names: seq<string>): (r: string)
    ensures IsAbs(r)
  {
    "/" + Join(names, '/')
  }

  /** filepath.Clean of an absolute path. */
  function Clean(p: string): (r: string)
    requires IsAbs(p)
    ensures IsAbs(r)
  {
    Render(Names(p))
  }

  /** Render and Names are inverse on cleaned paths. */
  lemma NamesRender(names: seq<string>)
    requires Canonical(names)
    ensures Names(Render(names)) == names
  {
    var j := Join(names, '/');
    SplitAround("", '/', j);
    assert Render(names) == "" + ['/'] + j;
    assert Split("", '/') == [""];
    if names == [] {
      assert Split(Render(names), '/') == ["", ""];
      assert ["", ""][1..] == [""];
      assert Walk([], [""]) == Walk([], []);
    } else {
      SplitJoin(names, '/');
      WalkNames([], names);
      assert Split(Render(names), '/') == [""] + names;
      assert ([""] + names)[1..] == names;
    }
  }

  /** Clean is idempotent, so filepath.Abs of a cleaned absolute path is
      that path. */
  lemma CleanIdempotent(p: string)
    requires IsAbs(p)
    ensures Clean(Clean(p)) == Clean(p)
  {
    NamesRender(Names(p));
  }

  /** Distinct names render as distinct paths. */
  lemma RenderInjective(a: seq<string>, b: seq<string>)
    requires Canonical(a) && Canonical(b)
    requires Render(a) == Render(b)
    ensures a == b
  {
    NamesRender(a);
    NamesRender(b);
  }

  /** filepath.Join(root, p) for an absolute root: the cleaned
      concatenation (an empty `p` gives the cleaned root). */
  function JoinPath(root: string, p: string): (r: string)
    requires IsAbs(root)
    ensures IsAbs(r)
  {
    Clean(root + "/" + p)
  }

  /** filepath.Abs of an absolute path. */
  function Abs(p: string): (r: string)
    requires IsAbs(p)
    ensures IsAbs(r)
  {
    Clean(p)
  }

  /** Joining `p` to `root` walks the elements of `p` from the names of
      the root. */
  lemma JoinPathWalks(root: string, p: string)
    requires IsAbs(root)
    ensures NoSlash(Split(p, '/'))
    ensures Names(root + "/" + p) == Walk(Names(root), Split(p, '/'))
  {
    SplitAround(root, '/', p);
    assert root + "/" + p == root + ['/'] + p;
    WalkAppend([], Split(root, '/'), Split(p, '/'));
  }

  lemma {:induction false} JoinAppend(xs: seq<string>, ys: seq<string>, c: char)
    requires |xs| >= 1 && |ys| >= 1
    ensures Join(xs + ys, c) == Join(xs, c) + [c] + Join(ys, c)
  {
    if |xs| == 1 {
      JoinCons(xs[0], ys, c);
      assert xs + ys == [xs[0]] + ys;
    } else {
      JoinAppend(xs[1..], ys, c);
      JoinCons(xs[0], xs[1..] + ys, c);
      JoinCons(xs[0], xs[1..], c);
      assert xs + ys == [xs[0]] + (xs[1..] + ys);
      assert xs == [xs[0]] + xs[1..];
    }
  }

  /** The rendered path of `f` lies strictly below the rendered path of a
      non-root `r` (it starts with that path and a separator) exactly when
      the names of `r` are a proper prefix of the names of `f`. */
  lemma StrictlyBelow(r: seq<string>, f: seq<string>)
    requires Canonical(r) && Canonical(f) && r != []
    ensures HasPrefix(Render(f), Render(r) + "/") <==> r < f
  {
    var jr := Join(r, '/');
    if r < f {
      var rest := f[|r|..];
      assert f == r + rest;
      JoinAppend(r, rest, '/');
      assert Render(f) == Render(r) + "/" + Join(rest, '/');
    }
    if HasPrefix(Render(f), Render(r) + "/") {
      var n := |Render(r) + "/"|;
      var t := Render(f)[n..];
      assert Render(f) == Render(r) + "/" + t;
      var jf := Join(f, '/');
      assert jf == jr + ['/'] + t by {
        assert Render(f) == "/" + jf;
        assert Render(f) == "/" + (jr + ['/'] + t);
        assert Render(f)[1..] == jf;
        assert ("/" + (jr + ['/'] + t))[1..] == jr + ['/'] + t;
      }
      assert |jf| > 0;
      assert f != [];
      SplitJoin(f, '/');
      SplitJoin(r, '/');
      SplitAround(jr, '/', t);
      assert f == r + Split(t, '/');
    }
  }
}
