/**
 * Source resolution: how a declared locator is classified, how file paths are filtered by
 * extension, how a directory walk and a repository checkout are turned into a list of files,
 * and how a definitions directory is reduced to its YAML files.
 *
 * The file system is abstract: a walk is the sequence of events filepath.Walk would hand to the
 * callback, and os.Stat is a function from a path to a PathStat.
 */
module Sources {
  import opened Results
  import opened Text
  import opened Seqs

  // ----- Locator classification -----

  /** The three resolution strategies. */
  datatype Strategy = GitRepository | RemoteUrl | LocalPath

  predicate IsGitLocator(locator: string) {
    HasPrefix(locator, "git@") || HasSuffix(locator, ".git")
  }

  predicate IsUrlLocator(locator: string) {
    HasPrefix(locator, "http://") || HasPrefix(locator, "https://")
  }

  /** The order of the tests in the source loop: repository first, then URL, else local. */
  function Classify(locator: string): Strategy {
    if IsGitLocator(locator) then GitRepository
    else if IsUrlLocator(locator) then RemoteUrl
    else LocalPath
  }

  /** Classification is decided in order: the repository test wins over the URL test. */
  lemma ClassifyPrecedence(locator: string)
    ensures Classify(locator) == GitRepository <==> IsGitLocator(locator)
    ensures Classify(locator) == RemoteUrl <==> !IsGitLocator(locator) && IsUrlLocator(locator)
    ensures Classify(locator) == LocalPath <==> !IsGitLocator(locator) && !IsUrlLocator(locator)
  {
  }

  /** A git@ locator, and an https URL ending in .git, are both repositories. */
  lemma GitExamples()
    ensures Classify("git@github.com:org/repo") == GitRepository
    ensures Classify("https://github.com/org/repo.git") == GitRepository
  {
    var g := "git@github.com:org/repo";
    assert g[..4] == "git@";
  }

  /** An http or https prefix selects the URL strategy. */
  lemma UrlExamples()
    ensures Classify("https://example.com/guide.md") == RemoteUrl
    ensures Classify("http://example.com/guide.md") == RemoteUrl
  {
    var u := "https://example.com/guide.md";
    assert u[24..] == "e.md";
    assert u[..4] == "http";
    assert u[..8] == "https://";
    var h := "http://example.com/guide.md";
    assert h[23..] == "e.md";
    assert h[..4] == "http";
    assert h[..7] == "http://";
  }

  /** The prefix tests are case-sensitive: an upper-case scheme is a local path. */
  lemma CaseSensitiveExample()
    ensures Classify("HTTPS://example.com/guide.md") == LocalPath
  {
    var v := "HTTPS://example.com/guide.md";
    assert v[24..] == "e.md";
    assert v[..4][0] == 'H';
    assert v[..7][0] == 'H';
    assert v[..8][0] == 'H';
  }

  /** A relative path that is neither a repository nor a URL is local. */
  lemma LocalExamples()
    ensures Classify("docs/guide.md") == LocalPath
  {
    var d := "docs/guide.md";
    assert d[9..] == "e.md";
    assert d[..4][0] == 'd';
    assert d[..7][0] == 'd';
    assert d[..8][0] == 'd';
  }

  // ----- Extension filtering -----

  /** hasExtension: the first extension that is a suffix of the path makes it true. */
  function HasExtension(path: string, exts: seq<string>): (r: bool)
    ensures r <==> exists i :: 0 <= i < |exts| && HasSuffix(path, exts[i])
  {
    if exts == [] then false
    else HasSuffix(path, exts[0]) || HasExtension(path, exts[1..])
  }

  /** An empty extension list rejects every path; matching is case-sensitive. */
  lemma HasExtensionExamples()
    ensures !HasExtension("notes/guide.md", [])
    ensures HasExtension("notes/guide.md", [".txt", ".md"])
    ensures !HasExtension("notes/guide.MD", [".md"])
  {
  }

  /** The filter of traverseDirectory: an empty list accepts everything. */
  predicate Accepts(path: string, exts: seq<string>) {
    |exts| == 0 || HasExtension(path, exts)
  }

  // ----- Directory walk -----

  /** One call of the walk callback: an entry, or the error filepath.Walk passes in. */
  datatype WalkEvent = Visit(path: string, isDir: bool) | WalkError(path: string)

  /** The files collected and whether the walk ran to its end. */
  datatype Walked = Walked(files: seq<string>, complete: bool)

  /** What traverseDirectory collects: accepted non-directory entries, up to the first error. */
  function WalkFiles(walk: seq<WalkEvent>, exts: seq<string>): Walked
    decreases |walk|
  {
    if walk == [] then Walked([], true)
    else match walk[0]
      case WalkError(_) => Walked([], false)
      case Visit(p, isDir) =>
        var rest := WalkFiles(walk[1..], exts);
        if !isDir && Accepts(p, exts) then Walked([p] + rest.files, rest.complete) else rest
  }

  /** The paths of every non-directory entry of a walk, in walk order. */
  function FilePaths(walk: seq<WalkEvent>): seq<string>
    decreases |walk|
  {
    if walk == [] then []
    else match walk[0]
      case WalkError(_) => FilePaths(walk[1..])
      case Visit(p, isDir) => (if isDir then [] else [p]) + FilePaths(walk[1..])
  }

  predicate HasWalkError(walk: seq<WalkEvent>) {
    exists i :: 0 <= i < |walk| && walk[i].WalkError?
  }

  /** traverseDirectory: the walk callback appends accepted files; an error stops the walk. */
  method TraverseDirectory(walk: seq<WalkEvent>, exts: seq<string>) returns (files: seq<string>, complete: bool)
    ensures Walked(files, complete) == WalkFiles(walk, exts)
  {
    files := [];
    var i := 0;
    while i < |walk|
      invariant 0 <= i <= |walk|
      invariant WalkFiles(walk, exts) == Walked(files + WalkFiles(walk[i..], exts).files, WalkFiles(walk[i..], exts).complete)
    {
      assert walk[i..][1..] == walk[i + 1..];
      match walk[i] {
        case WalkError(_) =>
          return files, false;
        case Visit(p, isDir) =>
          if !isDir && (|exts| == 0 || HasExtension(p, exts)) {
            files := files + [p];
          }
      }
      i := i + 1;
    }
    complete := true;
  }

  /** Every collected file passes the extension filter. */
  lemma {:induction false} WalkFilesAccepted(walk: seq<WalkEvent>, exts: seq<string>)
    ensures forall f :: f in WalkFiles(walk, exts).files ==> Accepts(f, exts)
    decreases |walk|
  {
    if walk != [] && walk[0].Visit? {
      WalkFilesAccepted(walk[1..], exts);
    }
  }

  /** The collected files are the walked files with some left out, in walk order. */
  lemma {:induction false} WalkFilesInOrder(walk: seq<WalkEvent>, exts: seq<string>)
    ensures IsSubsequence(WalkFiles(walk, exts).files, FilePaths(walk))
    decreases |walk|
  {
    if walk != [] {
      match walk[0]
      case WalkError(_) =>
      case Visit(p, isDir) =>
        WalkFilesInOrder(walk[1..], exts);
        var rest := WalkFiles(walk[1..], exts).files;
        if isDir {
          assert FilePaths(walk) == FilePaths(walk[1..]);
        } else {
          assert FilePaths(walk) == [p] + FilePaths(walk[1..]);
          if Accepts(p, exts) {
            assert ([p] + rest)[1..] == rest;
          } else {
            SubsequenceOfTail(rest, p, FilePaths(walk[1..]));
          }
        }
    }
  }

  lemma SubsequenceOfTail<T>(a: seq<T>, x: T, b: seq<T>)
    requires IsSubsequence(a, b)
    ensures IsSubsequence(a, [x] + b)
  {
    assert ([x] + b)[1..] == b;
  }

  /** The walk completes exactly when no error event occurs. */
  lemma {:induction false} WalkFilesComplete(walk: seq<WalkEvent>, exts: seq<string>)
    ensures WalkFiles(walk, exts).complete <==> !HasWalkError(walk)
    decreases |walk|
  {
    if walk != [] {
      WalkFilesComplete(walk[1..], exts);
      if walk[0].Visit? {
        if HasWalkError(walk[1..]) {
          var i :| 0 <= i < |walk[1..]| && walk[1..][i].WalkError?;
          assert walk[i + 1].WalkError?;
        }
        if HasWalkError(walk) {
          var i :| 0 <= i < |walk| && walk[i].WalkError?;
          assert walk[1..][i - 1].WalkError?;
        }
      } else {
        assert walk[0].WalkError?;
      }
    }
  }

  /** On a complete walk a path is collected exactly when it is a walked file that the filter accepts. */
  lemma {:induction false} WalkFilesMembers(walk: seq<WalkEvent>, exts: seq<string>, p: string)
    requires !HasWalkError(walk)
    ensures p in WalkFiles(walk, exts).files <==> p in FilePaths(walk) && Accepts(p, exts)
    decreases |walk|
  {
    if walk != [] {
      assert walk[0].Visit?;
      NoErrorInTail(walk);
      WalkFilesMembers(walk[1..], exts, p);
    }
  }

  lemma NoErrorInTail(walk: seq<WalkEvent>)
    requires walk != [] && !HasWalkError(walk)
    ensures !HasWalkError(walk[1..])
  {
    forall i | 0 <= i < |walk[1..]|
      ensures !walk[1..][i].WalkError?
    {
      assert walk[1..][i] == walk[i + 1];
    }
  }

  /** With no extensions declared a complete walk yields every non-directory entry. */
  lemma {:induction false} WalkFilesUnfiltered(walk: seq<WalkEvent>)
    requires !HasWalkError(walk)
    ensures WalkFiles(walk, []).files == FilePaths(walk)
    decreases |walk|
  {
    if walk != [] {
      assert walk[0].Visit?;
      NoErrorInTail(walk);
      WalkFilesUnfiltered(walk[1..]);
    }
  }

  /** The paths the filter accepts, in their order: an independent statement of the filter. */
  function AcceptedPaths(paths: seq<string>, exts: seq<string>): seq<string>
    decreases |paths|
  {
    if paths == [] then []
    else (if Accepts(paths[0], exts) then [paths[0]] else []) + AcceptedPaths(paths[1..], exts)
  }

  /** A complete walk yields exactly the accepted non-directory entries, in walk order, with repeats. */
  lemma {:induction false} WalkFilesExact(walk: seq<WalkEvent>, exts: seq<string>)
    requires !HasWalkError(walk)
    ensures WalkFiles(walk, exts).files == AcceptedPaths(FilePaths(walk), exts)
    decreases |walk|
  {
    if walk != [] {
      assert walk[0].Visit?;
      NoErrorInTail(walk);
      WalkFilesExact(walk[1..], exts);
      var rest := FilePaths(walk[1..]);
      if !walk[0].isDir {
        assert ([walk[0].path] + rest)[1..] == rest;
      } else {
        assert [] + rest == rest;
      }
    }
  }

  // ----- Repository checkout -----

  /** What os.Stat reports for a path; a directory carries the walk below it. */
  datatype PathStat = Missing | Directory(walk: seq<WalkEvent>) | RegularFile | OtherFile

  /** The outcome of the clone subprocess, naming the temporary directory it filled. */
  datatype Checkout = Cloned(tempDir: string) | NotCloned

  /** The files one declared sub-directory contributes. */
  function DirFiles(fullPath: string, st: PathStat, exts: seq<string>): Result<seq<string>> {
    match st
    case Missing => Err(StatFailed(fullPath))
    case Directory(walk) =>
      var walked := WalkFiles(walk, exts);
      if walked.complete then Ok(walked.files) else Err(WalkFailed(fullPath))
    case RegularFile => if HasExtension(fullPath, exts) then Ok([fullPath]) else Ok([])
    case OtherFile => Ok([])
  }

  /** The sub-directories' files concatenated in declared order; the first failure wins. */
  function SelectDirs(tempDir: string, dirs: seq<string>, exts: seq<string>, stat: string -> PathStat): Result<seq<string>>
    decreases |dirs|
  {
    if dirs == [] then Ok([])
    else
      var fullPath := JoinPath(tempDir, dirs[0]);
      match DirFiles(fullPath, stat(fullPath), exts)
      case Err(e) => Err(e)
      case Ok(files) => Prefixed(files, SelectDirs(tempDir, dirs[1..], exts, stat))
  }

  function Prefixed(files: seq<string>, r: Result<seq<string>>): Result<seq<string>> {
    match r
    case Ok(rest) => Ok(files + rest)
    case Err(e) => Err(e)
  }

  lemma PrefixedNothing(r: Result<seq<string>>)
    ensures Prefixed([], r) == r
  {
    if r.Ok? {
      assert [] + r.value == r.value;
    }
  }

  lemma PrefixedTwice(a: seq<string>, b: seq<string>, r: Result<seq<string>>)
    ensures Prefixed(a, Prefixed(b, r)) == Prefixed(a + b, r)
  {
    if r.Ok? {
      assert a + (b + r.value) == (a + b) + r.value;
    }
  }

  /** handleGitSource's result: a clone failure, else the selection over the declared dirs. */
  function GitSelection(repo: string, checkout: Checkout, dirs: seq<string>, exts: seq<string>, stat: string -> PathStat): Result<seq<string>> {
    match checkout
    case NotCloned => Err(CloneFailed(repo))
    case Cloned(tempDir) => SelectDirs(tempDir, dirs, exts, stat)
  }

  /** handleGitSource: stat each declared dir, traverse directories, keep matching regular files. */
  method HandleGitSource(repo: string, checkout: Checkout, dirs: seq<string>, exts: seq<string>, stat: string -> PathStat)
    returns (r: Result<seq<string>>)
    ensures r == GitSelection(repo, checkout, dirs, exts, stat)
  {
    if checkout.NotCloned? {
      return Err(CloneFailed(repo));
    }
    var tempDir := checkout.tempDir;
    var sources: seq<string> := [];
    var i := 0;
    assert dirs[0..] == dirs;
    PrefixedNothing(SelectDirs(tempDir, dirs, exts, stat));
    while i < |dirs|
      invariant 0 <= i <= |dirs|
      invariant SelectDirs(tempDir, dirs, exts, stat) == Prefixed(sources, SelectDirs(tempDir, dirs[i..], exts, stat))
    {
      assert dirs[i..][1..] == dirs[i + 1..];
      var fullPath := JoinPath(tempDir, dirs[i]);
      assert dirs[i..][0] == dirs[i];
      match stat(fullPath) {
        case Missing =>
          return Err(StatFailed(fullPath));
        case Directory(walk) =>
          var files, complete := TraverseDirectory(walk, exts);
          if !complete {
            return Err(WalkFailed(fullPath));
          }
          PrefixedTwice(sources, files, SelectDirs(tempDir, dirs[i + 1..], exts, stat));
          sources := sources + files;
        case RegularFile =>
          if HasExtension(fullPath, exts) {
            PrefixedTwice(sources, [fullPath], SelectDirs(tempDir, dirs[i + 1..], exts, stat));
            sources := sources + [fullPath];
          } else {
            PrefixedNothing(SelectDirs(tempDir, dirs[i + 1..], exts, stat));
          }
        case OtherFile =>
          PrefixedNothing(SelectDirs(tempDir, dirs[i + 1..], exts, stat));
      }
      i := i + 1;
    }
    assert dirs[i..] == [];
    assert sources + [] == sources;
    r := Ok(sources);
  }

  /** A declared sub-directory that does not exist makes the whole selection fail. */
  lemma {:induction false} MissingDirFails(tempDir: string, dirs: seq<string>, exts: seq<string>, stat: string -> PathStat, k: nat)
    requires k < |dirs| && stat(JoinPath(tempDir, dirs[k])) == Missing
    ensures SelectDirs(tempDir, dirs, exts, stat).Err?
    decreases k
  {
    if k > 0 {
      var fullPath := JoinPath(tempDir, dirs[0]);
      if DirFiles(fullPath, stat(fullPath), exts).Ok? {
        MissingDirFails(tempDir, dirs[1..], exts, stat, k - 1);
      }
    }
  }

  /** An empty dirs list selects nothing: there is no fallback to the repository root. */
  lemma NoDirsSelectNothing(repo: string, tempDir: string, exts: seq<string>, stat: string -> PathStat)
    ensures GitSelection(repo, Cloned(tempDir), [], exts, stat) == Ok([])
  {
  }

  /** Selection over two lists of dirs is the concatenation of the two selections. */
  lemma {:induction false} SelectDirsAppend(tempDir: string, d1: seq<string>, d2: seq<string>, exts: seq<string>, stat: string -> PathStat)
    ensures SelectDirs(tempDir, d1 + d2, exts, stat) ==
      match SelectDirs(tempDir, d1, exts, stat)
      case Err(e) => Err(e)
      case Ok(files) => Prefixed(files, SelectDirs(tempDir, d2, exts, stat))
    decreases |d1|
  {
    if d1 == [] {
      assert d1 + d2 == d2;
      PrefixedNothing(SelectDirs(tempDir, d2, exts, stat));
    } else {
      assert (d1 + d2)[0] == d1[0];
      assert (d1 + d2)[1..] == d1[1..] + d2;
      SelectDirsAppend(tempDir, d1[1..], d2, exts, stat);
      var fullPath := JoinPath(tempDir, d1[0]);
      var first := DirFiles(fullPath, stat(fullPath), exts);
      if first.Ok? {
        var r1 := SelectDirs(tempDir, d1[1..], exts, stat);
        if r1.Ok? {
          PrefixedTwice(first.value, r1.value, SelectDirs(tempDir, d2, exts, stat));
        }
      }
    }
  }

  /** With extensions declared, every selected file carries one of them. */
  lemma {:induction false} SelectedFilesHaveExtension(tempDir: string, dirs: seq<string>, exts: seq<string>, stat: string -> PathStat)
    requires exts != []
    requires SelectDirs(tempDir, dirs, exts, stat).Ok?
    ensures forall f :: f in SelectDirs(tempDir, dirs, exts, stat).value ==> HasExtension(f, exts)
    decreases |dirs|
  {
    if dirs != [] {
      var fullPath := JoinPath(tempDir, dirs[0]);
      SelectedFilesHaveExtension(tempDir, dirs[1..], exts, stat);
      if stat(fullPath).Directory? {
        WalkFilesAccepted(stat(fullPath).walk, exts);
      }
    }
  }

  /** With no extensions declared, a regular file named as a sub-directory is never selected. */
  lemma {:induction false} RegularFilesNeedExtensions(tempDir: string, dirs: seq<string>, stat: string -> PathStat)
    requires forall i :: 0 <= i < |dirs| ==> stat(JoinPath(tempDir, dirs[i])) == RegularFile
    ensures SelectDirs(tempDir, dirs, [], stat) == Ok([])
    decreases |dirs|
  {
    if dirs != [] {
      var fullPath := JoinPath(tempDir, dirs[0]);
      assert stat(fullPath) == RegularFile;
      assert DirFiles(fullPath, stat(fullPath), []) == Ok([]);
      forall i | 0 <= i < |dirs[1..]|
        ensures stat(JoinPath(tempDir, dirs[1..][i])) == RegularFile
      {
        assert dirs[1..][i] == dirs[i + 1];
      }
      RegularFilesNeedExtensions(tempDir, dirs[1..], stat);
      PrefixedNothing(Ok([]));
    }
  }

  // ----- Definitions directory -----

  predicate IsDefinitionFile(name: string) {
    HasSuffix(name, ".yaml") || HasSuffix(name, ".yml")
  }

  /** processDirectory's result: the joined paths of the YAML names, in listing order. */
  function DefinitionPaths(directory: string, names: seq<string>): seq<string>
    decreases |names|
  {
    if names == [] then []
    else
      var head := if IsDefinitionFile(names[0]) then [JoinPath(directory, names[0])] else [];
      head + DefinitionPaths(directory, names[1..])
  }

  /** Every listed name joined to the directory. */
  function JoinAll(directory: string, names: seq<string>): (r: seq<string>)
    ensures |r| == |names| && forall i :: 0 <= i < |names| ==> r[i] == JoinPath(directory, names[i])
    decreases |names|
  {
    if names == [] then [] else [JoinPath(directory, names[0])] + JoinAll(directory, names[1..])
  }

  /** processDirectory: a failed listing is an error, else keep the .yaml and .yml names. */
  method ProcessDirectory(directory: string, listing: Option<seq<string>>) returns (r: Result<seq<string>>)
    ensures listing.None? ==> r == Err(ReadDirFailed(directory))
    ensures listing.Some? ==> r == Ok(DefinitionPaths(directory, listing.value))
  {
    if listing.None? {
      return Err(ReadDirFailed(directory));
    }
    var names := listing.value;
    var paths: seq<string> := [];
    var i := 0;
    assert names[0..] == names;
    while i < |names|
      invariant 0 <= i <= |names|
      invariant DefinitionPaths(directory, names) == paths + DefinitionPaths(directory, names[i..])
    {
      assert names[i..][1..] == names[i + 1..];
      if HasSuffix(names[i], ".yaml") || HasSuffix(names[i], ".yml") {
        paths := paths + [JoinPath(directory, names[i])];
      }
      i := i + 1;
    }
    assert names[i..] == [];
    assert paths + [] == paths;
    r := Ok(paths);
  }

  /** Exactly the definition names appear, and in listing order. */
  lemma {:induction false} DefinitionPathsExact(directory: string, names: seq<string>, name: string)
    ensures JoinPath(directory, name) in DefinitionPaths(directory, names) <==> name in names && IsDefinitionFile(name)
    ensures IsSubsequence(DefinitionPaths(directory, names), JoinAll(directory, names))
    decreases |names|
  {
    if names != [] {
      DefinitionPathsExact(directory, names[1..], name);
      var rest := DefinitionPaths(directory, names[1..]);
      var all := JoinAll(directory, names[1..]);
      assert JoinAll(directory, names) == [JoinPath(directory, names[0])] + all;
      assert JoinPath(directory, name) == JoinPath(directory, names[0]) <==> name == names[0] by {
        JoinPathInjective(directory, name, names[0]);
      }
      if IsDefinitionFile(names[0]) {
        assert ([JoinPath(directory, names[0])] + rest)[1..] == rest;
      } else {
        assert DefinitionPaths(directory, names) == rest;
        SubsequenceOfTail(rest, JoinPath(directory, names[0]), all);
      }
    }
  }

  lemma JoinPathInjective(directory: string, a: string, b: string)
    ensures JoinPath(directory, a) == JoinPath(directory, b) <==> a == b
  {
    if JoinPath(directory, a) == JoinPath(directory, b) {
      var n := |directory| + 1;
      assert a == JoinPath(directory, a)[n..];
      assert b == JoinPath(directory, b)[n..];
    }
  }
}
