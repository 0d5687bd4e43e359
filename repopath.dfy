/** validateRepoPath: the guard saveFile applies to a path taken from the
    request before it writes the file. The repository root is absolute (it
    is what `git rev-parse --show-toplevel` printed); whether git tracks a
    path is asked of the git oracle. */
module RepoPath {
  import opened Wrappers
  import opened GoStrings
  import opened FilePath
  import opened Git

  /** The three refusals, each naming the path given: "invalid file path",
      "file not tracked by git" and "file path outside repository". */
  datatype PathError = InvalidPath(path: string) | NotTracked(path: string) | OutsideRepository(path: string)

  /** The containment test as main.go writes it: the file's absolute path
      starts with the repository's absolute path and a separator, or is
      that path. */
  predicate WithinAsWritten(absRepo: string, absFile: string) {
    HasPrefix(absFile, absRepo + "/") || absFile == absRepo
  }

  /** The repository's absolute path as a directory prefix: with a
      trailing separator added unless it already ends with one (only the
      root "/" does). */
  function DirPrefix(absRepo: string): (r: string)
    ensures |r| > 0 && r[|r| - 1] == '/'
    ensures HasPrefix(r, absRepo)
  {
    if |absRepo| > 0 && absRepo[|absRepo| - 1] == '/' then absRepo else absRepo + "/"
  }

  /** The containment test with the root directory handled. */
  predicate Within(absRepo: string, absFile: string) {
    HasPrefix(absFile, DirPrefix(absRepo)) || absFile == absRepo
  }

  /** validateRepoPath as main.go writes it. */
  function ValidateRepoPathAsWritten(root: string, p: string, git: Command -> Run): (r: Option<PathError>)
    requires IsAbs(root)
    ensures p == "" || IsAbs(p) ==> r == Some(InvalidPath(p))
    ensures p != "" && !IsAbs(p) && !git(LsFiles(root, p)).ok ==> r == Some(NotTracked(p))
    ensures r.Some? ==> r.value.path == p
  {
    if p == "" || IsAbs(p) then Some(InvalidPath(p))
    else if !git(LsFiles(root, p)).ok then Some(NotTracked(p))
    else if !WithinAsWritten(Abs(root), Abs(JoinPath(root, p))) then Some(OutsideRepository(p))
    else None
  }

  /** validateRepoPath with the corrected containment test: None when the
      path may be written. */
  function ValidateRepoPath(root: string, p: string, git: Command -> Run): (r: Option<PathError>)
    requires IsAbs(root)
    ensures p == "" || IsAbs(p) ==> r == Some(InvalidPath(p))
    ensures p != "" && !IsAbs(p) && !git(LsFiles(root, p)).ok ==> r == Some(NotTracked(p))
    ensures r.Some? ==> r.value.path == p
  {
    if p == "" || IsAbs(p) then Some(InvalidPath(p))
    else if !git(LsFiles(root, p)).ok then Some(NotTracked(p))
    else if !Within(Abs(root), Abs(JoinPath(root, p))) then Some(OutsideRepository(p))
    else None
  }

  /** The names of the path `p` resolves to under `root`. */
  function Resolved(root: string, p: string): seq<string>
    requires IsAbs(root)
  {
    Names(root + "/" + p)
  }

  /** Both absolute paths the check compares are the rendered names. */
  lemma AbsPaths(root: string, p: string)
    requires IsAbs(root)
    ensures Abs(root) == Render(Names(root))
    ensures Abs(JoinPath(root, p)) == Render(Resolved(root, p))
  {
    CleanIdempotent(root + "/" + p);
  }

  /** A rendered path ends with a separator only when it is the root. */
  lemma RenderEnd(names: seq<string>)
    requires Canonical(names)
    ensures var r := Render(names); r[|r| - 1] == '/' <==> names == []
  {
    if names != [] {
      var last := names[|names| - 1];
      assert last != [] && last[|last| - 1] != '/';
      JoinLast(names, '/');
    }
  }

  /** A rendered path never starts with two separators. */
  lemma RenderStart(names: seq<string>)
    requires Canonical(names)
    ensures !HasPrefix(Render(names), "//")
  {
    if names != [] {
      assert names[0] != [] && names[0][0] != '/';
      JoinFirst(names, '/');
      assert Render(names)[1] == Join(names, '/')[0];
    }
  }

  /** The corrected containment test holds exactly when the names of the
      repository are a prefix of the names of the file. */
  lemma WithinNames(r: seq<string>, f: seq<string>)
    requires Canonical(r) && Canonical(f)
    ensures Within(Render(r), Render(f)) <==> r <= f
  {
    RenderEnd(r);
    if r == [] {
      assert DirPrefix(Render(r)) == "/";
    } else {
      assert DirPrefix(Render(r)) == Render(r) + "/";
      StrictlyBelow(r, f);
      assert Render(f) == Render(r) <==> f == r by {
        if Render(f) == Render(r) {
          RenderInjective(r, f);
        }
      }
      assert r <= f <==> r < f || r == f;
    }
  }

  /** validateRepoPath accepts a path exactly when it is a non-empty
      relative path that git tracks and that, resolved under the root,
      stays at or below the root. */
  lemma ValidateRepoPathAccepts(root: string, p: string, git: Command -> Run)
    requires IsAbs(root)
    ensures ValidateRepoPath(root, p, git).None? <==>
      && p != "" && !IsAbs(p) && git(LsFiles(root, p)).ok
      && Names(root) <= Resolved(root, p)
  {
    AbsPaths(root, p);
    WithinNames(Names(root), Resolved(root, p));
  }

  /** For every root other than "/" the two tests agree. */
  lemma AsWrittenAgrees(root: string, p: string, git: Command -> Run)
    requires IsAbs(root) && Names(root) != []
    ensures ValidateRepoPathAsWritten(root, p, git) == ValidateRepoPath(root, p, git)
  {
    AbsPaths(root, p);
    RenderEnd(Names(root));
  }

  /** With the repository at "/", main.go's test rejects every path below
      the root: the prefix it looks for is "//". */
  lemma AsWrittenRejectsBelowSlash(p: string, git: Command -> Run)
    requires p != "" && !IsAbs(p) && git(LsFiles("/", p)).ok
    requires Resolved("/", p) != []
    ensures ValidateRepoPathAsWritten("/", p, git) == Some(OutsideRepository(p))
    ensures ValidateRepoPath("/", p, git) == None
  {
    var root := "/";
    assert Split(root, '/') == ["", ""];
    assert Names(root) == [];
    AbsPaths(root, p);
    assert Abs(root) == "/";
    RenderStart(Resolved(root, p));
    if Abs(JoinPath(root, p)) == Abs(root) {
      RenderInjective(Resolved(root, p), []);
    }
    ValidateRepoPathAccepts(root, p, git);
  }

  /** The elements of a path written out as the list they are joined from. */
  lemma SplitOf(p: string, elements: seq<string>)
    requires |elements| >= 1 && NoSlash(elements)
    requires p == Join(elements, '/')
    ensures Split(p, '/') == elements
  {
    SplitJoin(elements, '/');
  }

  /** The repository at "/" and the tracked file "a": main.go refuses it. */
  lemma RootSlashRejectsFile(root: string, p: string, git: Command -> Run)
    requires root == "/" && p == "a" && git(LsFiles(root, p)).ok
    ensures ValidateRepoPathAsWritten(root, p, git) == Some(OutsideRepository(p))
    ensures ValidateRepoPath(root, p, git) == None
  {
    SplitOf(root + "/" + p, ["", "", "a"]);
    WalkNames([], [p]);
    assert Resolved(root, p) == [p];
    AsWrittenRejectsBelowSlash(p, git);
  }

  lemma RepoNames(root: string)
    requires root == "/repo"
    ensures Names(root) == ["repo"]
  {
    SplitOf(root, ["", "repo"]);
  }

  /** A path that starts with ".." resolves from the root's parent. */
  lemma ParentThen(root: string, q: string)
    requires IsAbs(root) && Names(root) != []
    ensures NoSlash(Split(q, '/'))
    ensures var r := Names(root);
      Resolved(root, "../" + q) == Walk(r[..|r| - 1], Split(q, '/'))
  {
    var r := Names(root);
    JoinPathWalks(root, "../" + q);
    JoinPathWalks(root, q);
    assert "../" + q == ".." + ['/'] + q;
    SplitAround("..", '/', q);
    SplitWithout("..", '/');
    WalkAppend(r, [".."], Split(q, '/'));
  }

  /** "../x" leaves the repository "/repo", tracked or not. */
  lemma ParentRejected(root: string, q: string, git: Command -> Run)
    requires root == "/repo" && q == "x" && git(LsFiles(root, "../" + q)).ok
    ensures ValidateRepoPath(root, "../" + q, git) == Some(OutsideRepository("../" + q))
  {
    RepoNames(root);
    ParentThen(root, q);
    SplitOf(q, [q]);
    WalkNames([], [q]);
    ValidateRepoPathAccepts(root, "../" + q, git);
  }

  /** "../repo-evil/x" names a file of the sibling directory "/repo-evil",
      whose path starts with "/repo"; it is rejected. */
  lemma SiblingRejected(root: string, q: string, git: Command -> Run)
    requires root == "/repo" && q == "repo-evil/x" && git(LsFiles(root, "../" + q)).ok
    ensures ValidateRepoPath(root, "../" + q, git) == Some(OutsideRepository("../" + q))
  {
    RepoNames(root);
    ParentThen(root, q);
    SplitOf(q, ["repo-evil", "x"]);
    WalkNames([], ["repo-evil", "x"]);
    ValidateRepoPathAccepts(root, "../" + q, git);
  }
}
