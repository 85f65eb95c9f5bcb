/**
 * The repository helpers of the MCP server (mcp-server/src/tools/git.ts):
 * path containment for reads and listings, the temporary-directory guard,
 * and cloning into / removing temporary directories. The file system is a
 * set of directories, each named by its resolved segments; the working
 * directory, the temporary directory, the suffix `mkdtemp` picks, the
 * directory entries `readdir` returns and the outcome of `git clone` are
 * parameters.
 */
module GitTool {
  import opened Js
  import opened PosixPath
  import SshConfig

  const TempDirPrefix: string := "troubleshooting-"
  const TraversalError: string := "Path traversal detectado"
  const CleanupError: string := "Cleanup apenas permitido para diretórios temporários"
  const CloneErrorPrefix: string := "Falha ao clonar repositório: "

  datatype Result<T> = Ok(value: T) | Err(message: string)

  // ---------------------------------------------------------------------------
  // Containment

  /** `resolveInsideRoot(root, target)`: the resolved target, unless it is
      neither the resolved root nor below `root + "/"` as text. */
  function ResolveInsideRoot(cwd: seq<string>, root: string, target: string): (r: Result<string>)
    requires Normal(cwd)
    ensures r.Ok? ==> r.value == Render(ResolveFrom(ResolveFrom(cwd, root), target))
    ensures r.Err? ==> r.message == TraversalError
  {
    var rootSegs := ResolveFrom(cwd, root);
    var targetSegs := ResolveFrom(rootSegs, target);
    if TextInside(rootSegs, targetSegs) then Ok(Render(targetSegs)) else Err(TraversalError)
  }

  /** For every root but `/`, a target is accepted exactly when its resolved
      segments begin with the root's. */
  lemma ContainedIffBelowRoot(cwd: seq<string>, root: string, target: string)
    requires Normal(cwd) && |ResolveFrom(cwd, root)| > 0
    ensures ResolveInsideRoot(cwd, root, target).Ok?
      <==> IsPrefix(ResolveFrom(cwd, root), ResolveFrom(ResolveFrom(cwd, root), target))
  {
    TextInsideIsPrefix(ResolveFrom(cwd, root), ResolveFrom(ResolveFrom(cwd, root), target));
  }

  /** A root that resolves to `/` accepts only `/` itself: `"/" + sep` is
      `//`, a prefix no resolved path has. */
  lemma SlashRootAcceptsOnlyItself(cwd: seq<string>, root: string, target: string)
    requires Normal(cwd) && ResolveFrom(cwd, root) == []
    ensures ResolveInsideRoot(cwd, root, target).Ok? <==> ResolveFrom([], target) == []
  {
    RootContainsOnlyItself(ResolveFrom([], target));
  }

  lemma NameParts(name: string)
    requires IsSegment(name)
    ensures !IsAbsolute(name) && Split(name, '/') == [name]
  {
    SplitWithoutSeparator(name, '/');
  }

  /** A plain file name such as `README.md` is read from inside the root. */
  lemma PlainNameAccepted(cwd: seq<string>, root: string, name: string)
    requires Normal(cwd) && |ResolveFrom(cwd, root)| > 0 && IsSegment(name)
    ensures ResolveInsideRoot(cwd, root, name) == Ok(Render(ResolveFrom(cwd, root) + [name]))
  {
    var rootSegs := ResolveFrom(cwd, root);
    NameParts(name);
    assert Walk(rootSegs, [name]) == Walk(rootSegs + [name], []);
    assert (rootSegs + [name])[..|rootSegs|] == rootSegs;
    TextInsideIsPrefix(rootSegs, rootSegs + [name]);
  }

  /** `../<name>` escapes the root unless `name` is the root's own last
      segment. */
  lemma ParentEscapeRejected(cwd: seq<string>, root: string, name: string)
    requires Normal(cwd) && IsSegment(name)
    requires var rootSegs := ResolveFrom(cwd, root); |rootSegs| > 0 && rootSegs[|rootSegs| - 1] != name
    ensures ResolveInsideRoot(cwd, root, "../" + name) == Err(TraversalError)
  {
    var rootSegs := ResolveFrom(cwd, root);
    var target := "../" + name;
    assert target == ".." + ['/'] + name;
    SplitAppend("..", name, '/');
    SplitWithoutSeparator("..", '/');
    SplitWithoutSeparator(name, '/');
    assert Split(target, '/') == ["..", name];
    var up := rootSegs[..|rootSegs| - 1];
    assert Walk(rootSegs, ["..", name]) == Walk(up, [name]) == Walk(up + [name], []);
    var targetSegs := up + [name];
    assert targetSegs[|rootSegs| - 1] == name;
    TextInsideIsPrefix(rootSegs, targetSegs);
  }

  // ---------------------------------------------------------------------------
  // Reading

  /** `readFile(repo, file)`: the containment check, then the file's text
      from `files`, keyed by resolved path; a missing file fails as Node's
      `ENOENT` does. */
  function ReadFile(cwd: seq<string>, repo: string, file: string, files: map<string, string>): (r: Result<string>)
    requires Normal(cwd)
    ensures var target := ResolveInsideRoot(cwd, repo, file);
      && (target.Err? ==> r == Err(TraversalError))
      && (target.Ok? && target.value in files ==> r == Ok(files[target.value]))
      && (target.Ok? && target.value !in files ==> r.Err? && r.message != TraversalError)
  {
    var target := ResolveInsideRoot(cwd, repo, file);
    if target.Err? then Err(target.message)
    else if target.value in files then Ok(files[target.value])
    else Err("ENOENT: no such file or directory, open '" + target.value + "'")
  }

  // ---------------------------------------------------------------------------
  // Listing

  datatype DirEntry = DirEntry(name: string, isDirectory: bool)

  /** `listFiles(repo, directory)`: the containment check on `directory ||
      "."`, then the entries `readdir` returns for it, directories marked
      with a trailing slash. */
  function ListFiles(cwd: seq<string>, repo: string, directory: string, entries: seq<DirEntry>): (r: Result<seq<string>>)
    requires Normal(cwd)
    ensures r.Err? <==> ResolveInsideRoot(cwd, repo, if |directory| > 0 then directory else ".").Err?
    ensures r.Err? ==> r.message == TraversalError
    ensures r.Ok? ==> (|r.value| == |entries|
      && forall i :: 0 <= i < |entries| ==>
        r.value[i] == entries[i].name + (if entries[i].isDirectory then "/" else ""))
  {
    var target := ResolveInsideRoot(cwd, repo, if |directory| > 0 then directory else ".");
    if target.Err? then Err(target.message)
    else Ok(seq(|entries|, i requires 0 <= i < |entries| =>
      if entries[i].isDirectory then entries[i].name + "/" else entries[i].name))
  }

  /** An empty directory argument lists the repository root itself, which
      is always accepted. */
  lemma EmptyDirectoryListsRoot(cwd: seq<string>, repo: string, entries: seq<DirEntry>)
    requires Normal(cwd)
    ensures ListFiles(cwd, repo, "", entries).Ok?
  {
    SplitWithoutSeparator(".", '/');
    var rootSegs := ResolveFrom(cwd, repo);
    assert Walk(rootSegs, ["."]) == rootSegs;
  }

  // ---------------------------------------------------------------------------
  // Temporary directories

  /** `isTempRepoPath(repo)`: the base name starts with the prefix and the
      path is below the temporary directory as text. */
  predicate IsTempRepoPath(cwd: seq<string>, tmp: string, repo: string)
    requires Normal(cwd)
  {
    var repoSegs := ResolveFrom(cwd, repo);
    StartsWith(Basename(repoSegs), TempDirPrefix)
    && StartsWith(Render(repoSegs), Render(ResolveFrom(cwd, tmp)) + "/")
  }

  /** For a temporary directory other than `/`: a repository path passes the
      guard exactly when it lies strictly below the temporary directory and
      its last segment carries the prefix. */
  lemma TempPathIff(cwd: seq<string>, tmp: string, repo: string)
    requires Normal(cwd) && |ResolveFrom(cwd, tmp)| > 0
    ensures var repoSegs := ResolveFrom(cwd, repo); var tmpSegs := ResolveFrom(cwd, tmp);
      IsTempRepoPath(cwd, tmp, repo)
      <==> (IsPrefix(tmpSegs, repoSegs) && |tmpSegs| < |repoSegs|
        && StartsWith(repoSegs[|repoSegs| - 1], TempDirPrefix))
  {
    RenderStartsWith(ResolveFrom(cwd, tmp), ResolveFrom(cwd, repo));
  }

  /** A guarded repository path lies strictly below a temporary directory
      other than `/`. */
  lemma GuardedPathBelowTemp(cwd: seq<string>, tmp: string, repo: string)
    requires Normal(cwd) && IsTempRepoPath(cwd, tmp, repo)
    ensures var repoSegs := ResolveFrom(cwd, repo); var tmpSegs := ResolveFrom(cwd, tmp);
      |tmpSegs| > 0 && IsPrefix(tmpSegs, repoSegs) && |tmpSegs| < |repoSegs|
  {
    var repoSegs := ResolveFrom(cwd, repo);
    var tmpSegs := ResolveFrom(cwd, tmp);
    if |tmpSegs| == 0 {
      RootContainsOnlyItself(repoSegs);
      assert false;
    }
    TempPathIff(cwd, tmp, repo);
  }

  /** Every directory's parents are present too. */
  predicate ParentsPresent(directories: set<seq<string>>) {
    forall d, k :: d in directories && 0 <= k <= |d| ==> d[..k] in directories
  }

  predicate AllNormal(directories: set<seq<string>>) {
    forall d :: d in directories ==> Normal(d)
  }

  /** The recursive removal of `root`: the directory and everything below. */
  function RemoveTree(directories: set<seq<string>>, root: seq<string>): (r: set<seq<string>>)
    ensures r <= directories
    ensures forall d :: d in directories && !IsPrefix(root, d) ==> d in r
    ensures forall d :: d in r ==> !IsPrefix(root, d)
  {
    set d | d in directories && !IsPrefix(root, d)
  }

  /** Removing a whole tree keeps every remaining directory's parents. */
  lemma RemoveTreeKeepsParents(directories: set<seq<string>>, root: seq<string>)
    requires ParentsPresent(directories)
    ensures ParentsPresent(RemoveTree(directories, root))
  {
    var r := RemoveTree(directories, root);
    forall d, k | d in r && 0 <= k <= |d| ensures d[..k] in r {
      if IsPrefix(root, d[..k]) {
        assert false;
      }
    }
  }

  /** What a removal takes away lies below every ancestor of its root. */
  lemma RemovedBelowAncestor(directories: set<seq<string>>, root: seq<string>, ancestor: seq<string>)
    requires IsPrefix(ancestor, root) && |ancestor| < |root|
    ensures forall d :: d in directories && d !in RemoveTree(directories, root) ==>
      IsPrefix(ancestor, d) && |ancestor| < |d|
  {
    forall d | d in directories && d !in RemoveTree(directories, root)
      ensures IsPrefix(ancestor, d) && |ancestor| < |d|
    {
      assert d[..|ancestor|] == d[..|root|][..|ancestor|];
    }
  }

  /** Nothing present lies below a directory that is not present. */
  lemma NothingBelowMissing(directories: set<seq<string>>, dir: seq<string>)
    requires ParentsPresent(directories) && dir !in directories
    ensures RemoveTree(directories, dir) == directories
  {
    forall d | d in directories ensures !IsPrefix(dir, d) {
      if IsPrefix(dir, d) {
        assert false;
      }
    }
  }

  /** Adding a child of a present directory keeps every parent present. */
  lemma NewChild(directories: set<seq<string>>, parent: seq<string>, name: string)
    requires ParentsPresent(directories) && AllNormal(directories)
    requires parent in directories && IsSegment(name)
    ensures ParentsPresent(directories + {parent + [name]})
    ensures AllNormal(directories + {parent + [name]})
  {
    var dir := parent + [name];
    assert Normal(parent);
    assert forall i :: 0 <= i < |dir| ==> IsSegment(dir[i]) by {
      forall i | 0 <= i < |dir| ensures IsSegment(dir[i]) {
        if i < |parent| { assert dir[i] == parent[i]; }
      }
    }
    forall d, k | d in directories + {dir} && 0 <= k <= |d|
      ensures d[..k] in directories + {dir}
    {
      if d == dir && k <= |parent| {
        assert d[..k] == parent[..k];
      } else if d == dir {
        assert d[..k] == dir;
      }
    }
  }

  /** The `git clone` call: URL, target directory, options and the
      `GIT_SSH_COMMAND` it runs with. */
  datatype CloneCall = CloneCall(url: string, directory: string, options: seq<string>, sshCommand: string)

  /** The directories on disk. */
  class Workspace {
    var directories: set<seq<string>>

    predicate Valid()
      reads this
    {
      ParentsPresent(directories) && AllNormal(directories)
    }

    /** The temporary directory and its parents. */
    constructor(tmpSegs: seq<string>)
      requires Normal(tmpSegs)
      ensures Valid()
      ensures directories == set k | 0 <= k <= |tmpSegs| :: tmpSegs[..k]
    {
      directories := set k | 0 <= k <= |tmpSegs| :: tmpSegs[..k];
      new;
      forall d, k | d in directories && 0 <= k <= |d| ensures d[..k] in directories {
        var j :| 0 <= j <= |tmpSegs| && d == tmpSegs[..j];
        assert d[..k] == tmpSegs[..k];
      }
      forall d | d in directories ensures Normal(d) {
        var j :| 0 <= j <= |tmpSegs| && d == tmpSegs[..j];
        assert forall i :: 0 <= i < |d| ==> d[i] == tmpSegs[i];
      }
    }

    /** `cloneRepo(url, branch)`: a fresh `troubleshooting-` directory under
        the temporary directory, a shallow single-branch clone into it, and
        on failure the directory removed again and the error rethrown with a
        prefix. */
    method CloneRepo(url: string, branch: string, tmpSegs: seq<string>, suffix: string,
                     cloneError: Option<string>, env: SshConfig.Env, home: seq<string>)
      returns (r: Result<string>, call: CloneCall)
      requires Valid() && Normal(home)
      requires tmpSegs in directories
      requires IsSegment(TempDirPrefix + suffix) && tmpSegs + [TempDirPrefix + suffix] !in directories
      modifies this
      ensures Valid()
      ensures var dir := tmpSegs + [TempDirPrefix + suffix];
        call == CloneCall(url, Render(dir), ["--depth", "1", "--branch", branch, "--single-branch"],
          SshConfig.SshCommand(None, env, home))
      ensures cloneError.None? ==> (r == Ok(call.directory)
        && directories == old(directories) + {tmpSegs + [TempDirPrefix + suffix]})
      ensures cloneError.Some? ==> (r == Err(CloneErrorPrefix + cloneError.value)
        && directories == old(directories))
    {
      var dir := tmpSegs + [TempDirPrefix + suffix];
      NothingBelowMissing(directories, dir);
      NewChild(directories, tmpSegs, TempDirPrefix + suffix);
      ghost var before := directories;
      directories := directories + {dir};
      call := CloneCall(url, Render(dir), ["--depth", "1", "--branch", branch, "--single-branch"],
        SshConfig.SshCommand(None, env, home));
      if cloneError.Some? {
        assert IsPrefix(dir, dir);
        directories := RemoveTree(directories, dir);
        assert directories == before;
        r := Err(CloneErrorPrefix + cloneError.value);
      } else {
        r := Ok(Render(dir));
      }
    }

    /** `cleanupRepo(repo)`: the guard, then the recursive removal. Nothing
        outside the temporary directory is ever removed. */
    method CleanupRepo(cwd: seq<string>, tmp: string, repo: string) returns (r: Result<()>)
      requires Valid() && Normal(cwd)
      modifies this
      ensures Valid()
      ensures !IsTempRepoPath(cwd, tmp, repo) ==> (r == Err(CleanupError) && directories == old(directories))
      ensures IsTempRepoPath(cwd, tmp, repo) ==> (r == Ok(())
        && directories == RemoveTree(old(directories), ResolveFrom(cwd, repo)))
      ensures forall d :: d in old(directories) && d !in directories ==>
        IsPrefix(ResolveFrom(cwd, tmp), d) && |ResolveFrom(cwd, tmp)| < |d|
    {
      if !IsTempRepoPath(cwd, tmp, repo) {
        return Err(CleanupError);
      }
      var repoSegs := ResolveFrom(cwd, repo);
      GuardedPathBelowTemp(cwd, tmp, repo);
      RemoveTreeKeepsParents(directories, repoSegs);
      RemovedBelowAncestor(directories, repoSegs, ResolveFrom(cwd, tmp));
      directories := RemoveTree(directories, repoSegs);
      r := Ok(());
    }
  }

  /** A directory a successful clone returns passes the cleanup guard. */
  lemma ClonedDirectoryIsTemporary(cwd: seq<string>, tmpSegs: seq<string>, suffix: string)
    requires Normal(cwd) && Normal(tmpSegs) && |tmpSegs| > 0 && IsSegment(TempDirPrefix + suffix)
    ensures IsTempRepoPath(cwd, Render(tmpSegs), Render(tmpSegs + [TempDirPrefix + suffix]))
  {
    var dir := tmpSegs + [TempDirPrefix + suffix];
    RenderResolves(cwd, tmpSegs);
    RenderResolves(cwd, dir);
    assert (TempDirPrefix + suffix)[..|TempDirPrefix|] == TempDirPrefix;
    assert dir[..|tmpSegs|] == tmpSegs;
    RenderStartsWith(tmpSegs, dir);
  }
}
