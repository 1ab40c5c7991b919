/**
 * The batch orchestrator handleOictl: for each definition file, parse it; for a Documents file,
 * resolve each source and upload what it yields; for a Model file, register the model. Counters
 * of uploaded documents and registered models are kept across the whole batch.
 *
 * Every I/O answer comes from a World. Each of its functions is the answer the environment gives
 * to one kind of call, keyed by that call's argument.
 */
module Oictl {
  import opened Results
  import opened Text
  import opened Seqs
  import opened Sources
  import opened Config
  import opened Upload
  import opened Knowledge

  /** The GET of a URL source, the temporary file name chosen for it and whether writing it succeeded. */
  datatype UrlSource = UrlSource(fetch: Fetch, tempFile: string, written: bool)

  datatype World = World(
    decode: string -> Decoded,                    // reading and decoding a definition file
    clone: string -> Checkout,                    // cloning a repository locator
    stat: string -> PathStat,                     // os.Stat (and the walk below a directory)
    locate: (string, string) -> string,           // Abs(Join(Dir(definition file), locator))
    fetch: string -> UrlSource,                   // a URL source's GET and temporary file
    upload: Attempt -> UploadCall,                // what one uploadDocument call meets with
    token: string,                                // OI_TOKEN
    listing: string -> Option<seq<Document>>,     // the listing fetched while processing a Model file
    register: ModelPayload -> HttpOutcome)        // the model-registration POST

  /** documentCount, and the uploadDocument calls made so far. */
  datatype Uploads = Uploads(count: nat, attempts: seq<Attempt>)

  /** The state after one source or one list of sources: uploads, and an error that ends the run. */
  datatype Step = Step(uploads: Uploads, error: Option<Error>)

  /** The state of the whole run: uploads, modelCount, and the error handleOictl returns. */
  datatype Tally = Tally(uploads: Uploads, models: nat, error: Option<Error>)

  // ----- Specification of the run -----

  /** One uploadDocument call: recorded, and counted when it returned nil. */
  function UploadOne(u: Uploads, a: Attempt, w: World): Uploads {
    Uploads(if UploadDocument(w.upload(a)).Stored? then u.count + 1 else u.count, u.attempts + [a])
  }

  /** The upload loop: each file is uploaded under its base name; a failure moves on to the next. */
  function UploadEach(files: seq<string>, tag: string, u: Uploads, w: World): Uploads
    decreases |files|
  {
    if files == [] then u
    else UploadEach(files[1..], tag, UploadOne(u, Attempt(files[0], tag, BaseName(files[0])), w), w)
  }

  /** The body of the loop over sources, by resolution strategy. */
  function SourceStep(definition: string, tag: string, src: SourceDescriptor, u: Uploads, w: World): Step {
    match Classify(src.locator)
    case GitRepository =>
      (match GitSelection(src.locator, w.clone(src.locator), src.dirs, src.extensions, w.stat)
       case Err(e) => Step(u, Some(e))
       case Ok(files) => Step(UploadEach(files, tag, u, w), None))
    case RemoteUrl =>
      var s := w.fetch(src.locator);
      (match FetchUrlContent(src.locator, s.fetch)
       case Err(e) => Step(u, Some(e))
       case Ok(_) =>
         if !s.written then Step(u, Some(TempWriteFailed(s.tempFile)))
         else Step(UploadOne(u, Attempt(s.tempFile, tag, src.locator), w), None))
    case LocalPath =>
      var path := w.locate(definition, src.locator);
      match w.stat(path)
      case Missing => Step(u, None)
      case Directory(walk) =>
        var walked := WalkFiles(walk, src.extensions);
        if walked.complete then Step(UploadEach(walked.files, tag, u, w), None)
        else Step(u, Some(WalkFailed(path)))
      case RegularFile => Step(UploadOne(u, Attempt(path, tag, BaseName(path)), w), None)
      case OtherFile => Step(u, None)
  }

  /** The loop over a Documents file's sources; an error returns at once. */
  function SourceSteps(definition: string, tag: string, srcs: seq<SourceDescriptor>, u: Uploads, w: World): Step
    decreases |srcs|
  {
    if srcs == [] then Step(u, None)
    else
      var s := SourceStep(definition, tag, srcs[0], u, w);
      if s.error.Some? then s else SourceSteps(definition, tag, srcs[1..], s.uploads, w)
  }

  /** The body of the loop over definition files. */
  function FileStep(definition: string, u: Uploads, models: nat, w: World): Tally {
    match ParseYamlFile(definition, w.decode(definition))
    case Err(_) => Tally(u, models, None)
    case Ok(Documents(d)) =>
      var s := SourceSteps(definition, d.name, d.sources, u, w);
      Tally(s.uploads, models, s.error)
    case Ok(Model(m)) =>
      if ModelSucceeded(ModelOutcome(m, w.token, w.listing(definition), w.register))
      then Tally(u, models + 1, None)
      else Tally(u, models, None)
  }

  /** The loop over definition files; an error returns at once. */
  function FileSteps(paths: seq<string>, u: Uploads, models: nat, w: World): Tally
    decreases |paths|
  {
    if paths == [] then Tally(u, models, None)
    else
      var t := FileStep(paths[0], u, models, w);
      if t.error.Some? then t else FileSteps(paths[1..], t.uploads, t.models, w)
  }

  /** A whole run of handleOictl from zero counters. */
  function Run(paths: seq<string>, w: World): Tally {
    FileSteps(paths, Uploads(0, []), 0, w)
  }

  // ----- The orchestrator -----

  /** The loop that uploads the files a repository or a local directory resolved to. */
  method UploadFiles(files: seq<string>, tag: string, w: World, count0: nat, ghost attempts0: seq<Attempt>)
    returns (count: nat, ghost attempts: seq<Attempt>)
    ensures Uploads(count, attempts) == UploadEach(files, tag, Uploads(count0, attempts0), w)
  {
    count := count0;
    attempts := attempts0;
    var i := 0;
    assert files[0..] == files;
    while i < |files|
      invariant 0 <= i <= |files|
      invariant UploadEach(files, tag, Uploads(count0, attempts0), w) == UploadEach(files[i..], tag, Uploads(count, attempts), w)
    {
      assert files[i..][1..] == files[i + 1..];
      var call := Attempt(files[i], tag, BaseName(files[i]));
      var result := UploadDocument(w.upload(call));
      attempts := attempts + [call];
      if result.Stored? {
        count := count + 1;
      }
      i := i + 1;
    }
  }

  /** One iteration of the loop over sources: classify, resolve, upload. */
  method ProcessSource(definition: string, tag: string, src: SourceDescriptor, w: World, count0: nat, ghost attempts0: seq<Attempt>)
    returns (count: nat, ghost attempts: seq<Attempt>, err: Option<Error>)
    ensures Step(Uploads(count, attempts), err) == SourceStep(definition, tag, src, Uploads(count0, attempts0), w)
  {
    count := count0;
    attempts := attempts0;
    err := None;
    var locator := src.locator;
    if HasPrefix(locator, "git@") || HasSuffix(locator, ".git") {
      var sources := HandleGitSource(locator, w.clone(locator), src.dirs, src.extensions, w.stat);
      if sources.Err? {
        err := Some(sources.error);
        return;
      }
      count, attempts := UploadFiles(sources.value, tag, w, count0, attempts0);
    } else if HasPrefix(locator, "http://") || HasPrefix(locator, "https://") {
      var s := w.fetch(locator);
      var content := FetchUrlContent(locator, s.fetch);
      if content.Err? {
        err := Some(content.error);
        return;
      }
      if !s.written {
        err := Some(TempWriteFailed(s.tempFile));
        return;
      }
      var call := Attempt(s.tempFile, tag, locator);
      var result := UploadDocument(w.upload(call));
      attempts := attempts + [call];
      if result.Stored? {
        count := count + 1;
      }
    } else {
      var resolvedPath := w.locate(definition, locator);
      match w.stat(resolvedPath) {
        case Missing =>
        case Directory(walk) =>
          var files, complete := TraverseDirectory(walk, src.extensions);
          if !complete {
            err := Some(WalkFailed(resolvedPath));
            return;
          }
          count, attempts := UploadFiles(files, tag, w, count0, attempts0);
        case RegularFile =>
          var call := Attempt(resolvedPath, tag, BaseName(resolvedPath));
          var result := UploadDocument(w.upload(call));
          attempts := attempts + [call];
          if result.Stored? {
            count := count + 1;
          }
        case OtherFile =>
      }
    }
  }

  /** handleOictl: returns the two counters and the error that ended the run early, if any. */
  method HandleOictl(paths: seq<string>, w: World)
    returns (documentCount: nat, modelCount: nat, err: Option<Error>, ghost attempts: seq<Attempt>)
    ensures documentCount == Run(paths, w).uploads.count
    ensures modelCount == Run(paths, w).models
    ensures err == Run(paths, w).error
    ensures attempts == Run(paths, w).uploads.attempts
  {
    documentCount, modelCount, err := 0, 0, None;
    attempts := [];
    var i := 0;
    assert paths[0..] == paths;
    while i < |paths|
      invariant 0 <= i <= |paths|
      invariant Run(paths, w) == FileSteps(paths[i..], Uploads(documentCount, attempts), modelCount, w)
    {
      assert paths[i..][1..] == paths[i + 1..];
      var filePath := paths[i];
      ghost var u0 := Uploads(documentCount, attempts);
      var config := ParseYamlFile(filePath, w.decode(filePath));
      match config {
        case Err(_) =>
        case Ok(Documents(c)) =>
          var tag := c.name;
          var j := 0;
          assert c.sources[0..] == c.sources;
          while j < |c.sources|
            invariant 0 <= j <= |c.sources|
            invariant SourceSteps(filePath, tag, c.sources, u0, w) ==
              SourceSteps(filePath, tag, c.sources[j..], Uploads(documentCount, attempts), w)
          {
            assert c.sources[j..][1..] == c.sources[j + 1..];
            var e;
            documentCount, attempts, e := ProcessSource(filePath, tag, c.sources[j], w, documentCount, attempts);
            if e.Some? {
              err := e;
              return;
            }
            j := j + 1;
          }
          assert c.sources[j..] == [];
        case Ok(Model(c)) =>
          var attempt := ProcessModel(c, w.token, w.listing(filePath), w.register);
          if ModelSucceeded(attempt) {
            modelCount := modelCount + 1;
          }
      }
      i := i + 1;
    }
  }

  // ----- Properties of the run -----

  /** How many of the recorded uploadDocument calls returned nil. */
  function CountStored(attempts: seq<Attempt>, w: World): nat
    decreases |attempts|
  {
    if attempts == [] then 0
    else
      var stored := if UploadDocument(w.upload(attempts[|attempts| - 1])).Stored? then 1 else 0;
      CountStored(attempts[..|attempts| - 1], w) + stored
  }

  /** documentCount agrees with the calls recorded. */
  predicate Consistent(u: Uploads, w: World) {
    u.count == CountStored(u.attempts, w)
  }

  lemma UploadOneConsistent(u: Uploads, a: Attempt, w: World)
    requires Consistent(u, w)
    ensures Consistent(UploadOne(u, a, w), w)
  {
    assert (u.attempts + [a])[..|u.attempts|] == u.attempts;
  }

  lemma {:induction false} UploadEachConsistent(files: seq<string>, tag: string, u: Uploads, w: World)
    requires Consistent(u, w)
    ensures Consistent(UploadEach(files, tag, u, w), w)
    decreases |files|
  {
    if files != [] {
      var a := Attempt(files[0], tag, BaseName(files[0]));
      UploadOneConsistent(u, a, w);
      UploadEachConsistent(files[1..], tag, UploadOne(u, a, w), w);
    }
  }

  lemma SourceStepConsistent(definition: string, tag: string, src: SourceDescriptor, u: Uploads, w: World)
    requires Consistent(u, w)
    ensures Consistent(SourceStep(definition, tag, src, u, w).uploads, w)
  {
    match Classify(src.locator)
    case GitRepository =>
      var r := GitSelection(src.locator, w.clone(src.locator), src.dirs, src.extensions, w.stat);
      if r.Ok? {
        UploadEachConsistent(r.value, tag, u, w);
      }
    case RemoteUrl =>
      var s := w.fetch(src.locator);
      UploadOneConsistent(u, Attempt(s.tempFile, tag, src.locator), w);
    case LocalPath =>
      var path := w.locate(definition, src.locator);
      match w.stat(path)
      case Missing =>
      case Directory(walk) =>
        UploadEachConsistent(WalkFiles(walk, src.extensions).files, tag, u, w);
      case RegularFile =>
        UploadOneConsistent(u, Attempt(path, tag, BaseName(path)), w);
      case OtherFile =>
  }

  lemma {:induction false} SourceStepsConsistent(definition: string, tag: string, srcs: seq<SourceDescriptor>, u: Uploads, w: World)
    requires Consistent(u, w)
    ensures Consistent(SourceSteps(definition, tag, srcs, u, w).uploads, w)
    decreases |srcs|
  {
    if srcs != [] {
      SourceStepConsistent(definition, tag, srcs[0], u, w);
      var s := SourceStep(definition, tag, srcs[0], u, w);
      if s.error.None? {
        SourceStepsConsistent(definition, tag, srcs[1..], s.uploads, w);
      }
    }
  }

  lemma {:induction false} FileStepsConsistent(paths: seq<string>, u: Uploads, models: nat, w: World)
    requires Consistent(u, w)
    ensures Consistent(FileSteps(paths, u, models, w).uploads, w)
    decreases |paths|
  {
    if paths != [] {
      var d := ParseYamlFile(paths[0], w.decode(paths[0]));
      if d.Ok? && d.value.Documents? {
        SourceStepsConsistent(paths[0], d.value.documents.name, d.value.documents.sources, u, w);
      }
      var t := FileStep(paths[0], u, models, w);
      if t.error.None? {
        FileStepsConsistent(paths[1..], t.uploads, t.models, w);
      }
    }
  }

  /**
   * documentCount ends equal to the number of uploadDocument calls that returned nil, including
   * calls whose metadata POST was rejected.
   */
  lemma DocumentCountIsSuccessfulUploads(paths: seq<string>, w: World)
    ensures Run(paths, w).uploads.count == CountStored(Run(paths, w).uploads.attempts, w)
    ensures Run(paths, w).uploads.count <= |Run(paths, w).uploads.attempts|
  {
    FileStepsConsistent(paths, Uploads(0, []), 0, w);
    CountStoredAtMost(Run(paths, w).uploads.attempts, w);
  }

  lemma {:induction false} CountStoredAtMost(attempts: seq<Attempt>, w: World)
    ensures CountStored(attempts, w) <= |attempts|
    decreases |attempts|
  {
    if attempts != [] {
      CountStoredAtMost(attempts[..|attempts| - 1], w);
    }
  }

  /** Every resolved file is handed to uploadDocument once, in order, under the definition's tag. */
  lemma {:induction false} UploadEachAttempts(files: seq<string>, tag: string, u: Uploads, w: World)
    ensures |UploadEach(files, tag, u, w).attempts| == |u.attempts| + |files|
    ensures UploadEach(files, tag, u, w).attempts[..|u.attempts|] == u.attempts
    ensures forall k :: 0 <= k < |files| ==>
      UploadEach(files, tag, u, w).attempts[|u.attempts| + k] == Attempt(files[k], tag, BaseName(files[k]))
    decreases |files|
  {
    if files != [] {
      var a := Attempt(files[0], tag, BaseName(files[0]));
      var u' := UploadOne(u, a, w);
      UploadEachAttempts(files[1..], tag, u', w);
      var r := UploadEach(files, tag, u, w).attempts;
      assert r[..|u'.attempts|] == u.attempts + [a];
      assert r[..|u.attempts|] == (u.attempts + [a])[..|u.attempts|];
      forall k | 0 <= k < |files|
        ensures r[|u.attempts| + k] == Attempt(files[k], tag, BaseName(files[k]))
      {
        if k == 0 {
          assert r[|u.attempts|] == (u.attempts + [a])[|u.attempts|];
        } else {
          assert files[1..][k - 1] == files[k];
          assert |u'.attempts| + (k - 1) == |u.attempts| + k;
        }
      }
    }
  }

  /** A local locator whose resolved path does not exist contributes nothing and is no error. */
  lemma MissingLocalSourceIsSkipped(definition: string, tag: string, src: SourceDescriptor, u: Uploads, w: World)
    requires Classify(src.locator) == LocalPath
    requires w.stat(w.locate(definition, src.locator)) == Missing
    ensures SourceStep(definition, tag, src, u, w) == Step(u, None)
  {
  }

  /** A local regular file is uploaded once, whatever extensions or dirs the source declares. */
  lemma LocalFileIgnoresFilters(definition: string, tag: string, locator: string, dirs: seq<string>, exts: seq<string>, u: Uploads, w: World)
    requires Classify(locator) == LocalPath
    requires w.stat(w.locate(definition, locator)) == RegularFile
    ensures var path := w.locate(definition, locator);
      SourceStep(definition, tag, SourceDescriptor(locator, dirs, exts), u, w) ==
      Step(UploadOne(u, Attempt(path, tag, BaseName(path)), w), None)
  {
  }

  /** A URL source ignores its dirs and extensions: one upload of the fetched file, named by the URL. */
  lemma UrlIgnoresFilters(definition: string, tag: string, locator: string, d1: seq<string>, e1: seq<string>, d2: seq<string>, e2: seq<string>, u: Uploads, w: World)
    requires Classify(locator) == RemoteUrl
    ensures SourceStep(definition, tag, SourceDescriptor(locator, d1, e1), u, w) ==
      SourceStep(definition, tag, SourceDescriptor(locator, d2, e2), u, w)
    ensures var s := w.fetch(locator);
      FetchUrlContent(locator, s.fetch).Ok? && s.written ==>
      SourceStep(definition, tag, SourceDescriptor(locator, d1, e1), u, w) ==
      Step(UploadOne(u, Attempt(s.tempFile, tag, locator), w), None)
  {
  }

  /** Once the run has stopped with an error, no later file is processed. */
  lemma {:induction false} ErrorStopsTheRun(paths: seq<string>, u: Uploads, models: nat, w: World, k: nat)
    requires k <= |paths|
    requires FileSteps(paths[..k], u, models, w).error.Some?
    ensures FileSteps(paths, u, models, w) == FileSteps(paths[..k], u, models, w)
    decreases k
  {
    assert k > 0;
    assert paths[..k][0] == paths[0];
    var t := FileStep(paths[0], u, models, w);
    if t.error.None? {
      assert paths[..k][1..] == paths[1..][..k - 1];
      ErrorStopsTheRun(paths[1..], t.uploads, t.models, w, k - 1);
    }
  }

  /** Once the sources of a file have stopped with an error, no later source is processed. */
  lemma {:induction false} ErrorStopsTheSources(definition: string, tag: string, srcs: seq<SourceDescriptor>, u: Uploads, w: World, k: nat)
    requires k <= |srcs|
    requires SourceSteps(definition, tag, srcs[..k], u, w).error.Some?
    ensures SourceSteps(definition, tag, srcs, u, w) == SourceSteps(definition, tag, srcs[..k], u, w)
    decreases k
  {
    assert k > 0;
    assert srcs[..k][0] == srcs[0];
    var s := SourceStep(definition, tag, srcs[0], u, w);
    if s.error.None? {
      assert srcs[..k][1..] == srcs[1..][..k - 1];
      ErrorStopsTheSources(definition, tag, srcs[1..], s.uploads, w, k - 1);
    }
  }

  /** If the first j sources succeed and source j fails, the sources end in source j's state. */
  lemma {:induction false} FailedSourceEndsTheFile(definition: string, tag: string, srcs: seq<SourceDescriptor>, u: Uploads, w: World, j: nat)
    requires j < |srcs|
    requires SourceSteps(definition, tag, srcs[..j], u, w).error.None?
    requires SourceStep(definition, tag, srcs[j], SourceSteps(definition, tag, srcs[..j], u, w).uploads, w).error.Some?
    ensures SourceSteps(definition, tag, srcs, u, w) ==
      SourceStep(definition, tag, srcs[j], SourceSteps(definition, tag, srcs[..j], u, w).uploads, w)
    decreases j
  {
    if j == 0 {
      assert srcs[..0] == [];
    } else {
      assert srcs[..j][0] == srcs[0];
      var s := SourceStep(definition, tag, srcs[0], u, w);
      assert srcs[..j][1..] == srcs[1..][..j - 1];
      assert srcs[1..][j - 1] == srcs[j];
      FailedSourceEndsTheFile(definition, tag, srcs[1..], s.uploads, w, j - 1);
    }
  }

  /** If the first k files succeed and file k fails, the run ends in file k's state. */
  lemma {:induction false} FailedFileEndsTheRun(paths: seq<string>, u: Uploads, models: nat, w: World, k: nat)
    requires k < |paths|
    requires FileSteps(paths[..k], u, models, w).error.None?
    requires FileStep(paths[k], FileSteps(paths[..k], u, models, w).uploads, FileSteps(paths[..k], u, models, w).models, w).error.Some?
    ensures FileSteps(paths, u, models, w) ==
      FileStep(paths[k], FileSteps(paths[..k], u, models, w).uploads, FileSteps(paths[..k], u, models, w).models, w)
    decreases k
  {
    if k == 0 {
      assert paths[..0] == [];
    } else {
      assert paths[..k][0] == paths[0];
      var t := FileStep(paths[0], u, models, w);
      assert paths[..k][1..] == paths[1..][..k - 1];
      assert paths[1..][k - 1] == paths[k];
      FailedFileEndsTheRun(paths[1..], t.uploads, t.models, w, k - 1);
    }
  }

  /** The run gets to source j of the Documents file paths[k] without an error. */
  predicate ReachesSource(paths: seq<string>, k: nat, d: DocumentsDef, j: nat, w: World) {
    && k < |paths|
    && FileSteps(paths[..k], Uploads(0, []), 0, w).error.None?
    && ParseYamlFile(paths[k], w.decode(paths[k])) == Ok(Documents(d))
    && j < |d.sources|
    && SourceSteps(paths[k], d.name, d.sources[..j], FileSteps(paths[..k], Uploads(0, []), 0, w).uploads, w).error.None?
  }

  /** documentCount and the calls made when the run gets to that source. */
  function UploadsAt(paths: seq<string>, k: nat, d: DocumentsDef, j: nat, w: World): Uploads
    requires ReachesSource(paths, k, d, j, w)
  {
    SourceSteps(paths[k], d.name, d.sources[..j], FileSteps(paths[..k], Uploads(0, []), 0, w).uploads, w).uploads
  }

  /** modelCount when the run gets to that source. */
  function ModelsAt(paths: seq<string>, k: nat, d: DocumentsDef, j: nat, w: World): nat
    requires ReachesSource(paths, k, d, j, w)
  {
    FileSteps(paths[..k], Uploads(0, []), 0, w).models
  }

  /**
   * A source that fails ends the whole run: handleOictl returns its error, with the counters
   * as they were when the run got to it, and no later source or file is processed.
   */
  lemma SourceErrorEndsTheRun(paths: seq<string>, k: nat, d: DocumentsDef, j: nat, w: World)
    requires ReachesSource(paths, k, d, j, w)
    requires SourceStep(paths[k], d.name, d.sources[j], UploadsAt(paths, k, d, j, w), w).error.Some?
    ensures SourceStep(paths[k], d.name, d.sources[j], UploadsAt(paths, k, d, j, w), w).uploads == UploadsAt(paths, k, d, j, w)
    ensures Run(paths, w) == Tally(UploadsAt(paths, k, d, j, w), ModelsAt(paths, k, d, j, w),
      SourceStep(paths[k], d.name, d.sources[j], UploadsAt(paths, k, d, j, w), w).error)
  {
    var before := FileSteps(paths[..k], Uploads(0, []), 0, w);
    FailedSourceEndsTheFile(paths[k], d.name, d.sources, before.uploads, w, j);
    FailedFileEndsTheRun(paths, Uploads(0, []), 0, w, k);
  }

  /** A failed clone, stat or walk of a repository source ends the run with that error. */
  lemma GitFailureAborts(paths: seq<string>, k: nat, d: DocumentsDef, j: nat, w: World)
    requires ReachesSource(paths, k, d, j, w)
    requires var src := d.sources[j];
      Classify(src.locator) == GitRepository &&
      GitSelection(src.locator, w.clone(src.locator), src.dirs, src.extensions, w.stat).Err?
    ensures var src := d.sources[j];
      Run(paths, w) == Tally(UploadsAt(paths, k, d, j, w), ModelsAt(paths, k, d, j, w),
        Some(GitSelection(src.locator, w.clone(src.locator), src.dirs, src.extensions, w.stat).error))
  {
    SourceErrorEndsTheRun(paths, k, d, j, w);
  }

  /** A URL whose fetch fails ends the run with a fetch error for that URL. */
  lemma UrlFailureAborts(paths: seq<string>, k: nat, d: DocumentsDef, j: nat, w: World)
    requires ReachesSource(paths, k, d, j, w)
    requires var src := d.sources[j];
      Classify(src.locator) == RemoteUrl && FetchUrlContent(src.locator, w.fetch(src.locator).fetch).Err?
    ensures Run(paths, w) == Tally(UploadsAt(paths, k, d, j, w), ModelsAt(paths, k, d, j, w), Some(FetchFailed(d.sources[j].locator)))
  {
    FetchNeedsExactly200(d.sources[j].locator, w.fetch(d.sources[j].locator).fetch);
    SourceErrorEndsTheRun(paths, k, d, j, w);
  }

  /** A fetched URL whose temporary file cannot be written ends the run with that error. */
  lemma TempWriteFailureAborts(paths: seq<string>, k: nat, d: DocumentsDef, j: nat, w: World)
    requires ReachesSource(paths, k, d, j, w)
    requires var src := d.sources[j];
      Classify(src.locator) == RemoteUrl && FetchUrlContent(src.locator, w.fetch(src.locator).fetch).Ok? &&
      !w.fetch(src.locator).written
    ensures Run(paths, w) == Tally(UploadsAt(paths, k, d, j, w), ModelsAt(paths, k, d, j, w),
      Some(TempWriteFailed(w.fetch(d.sources[j].locator).tempFile)))
  {
    SourceErrorEndsTheRun(paths, k, d, j, w);
  }

  /** A local directory whose walk meets an error ends the run with a walk error for that path. */
  lemma WalkFailureAborts(paths: seq<string>, k: nat, d: DocumentsDef, j: nat, w: World, walk: seq<WalkEvent>)
    requires ReachesSource(paths, k, d, j, w)
    requires var src := d.sources[j];
      Classify(src.locator) == LocalPath && w.stat(w.locate(paths[k], src.locator)) == Directory(walk) &&
      HasWalkError(walk)
    ensures Run(paths, w) == Tally(UploadsAt(paths, k, d, j, w), ModelsAt(paths, k, d, j, w),
      Some(WalkFailed(w.locate(paths[k], d.sources[j].locator))))
  {
    WalkFilesComplete(walk, d.sources[j].extensions);
    SourceErrorEndsTheRun(paths, k, d, j, w);
  }

  /** A definition file with an unknown kind (or that cannot be read) is skipped; the batch goes on. */
  lemma UnknownKindIsSkipped(path: string, rest: seq<string>, u: Uploads, models: nat, w: World)
    requires ParseYamlFile(path, w.decode(path)).Err?
    ensures FileSteps([path] + rest, u, models, w) == FileSteps(rest, u, models, w)
  {
    assert ([path] + rest)[0] == path;
    assert ([path] + rest)[1..] == rest;
  }

  /** modelCount goes up by one for a Model file exactly when processModel returned nil. */
  lemma ModelCountedOnSuccess(path: string, m: ModelDef, u: Uploads, models: nat, w: World)
    requires ParseYamlFile(path, w.decode(path)) == Ok(Model(m))
    ensures FileStep(path, u, models, w).uploads == u
    ensures FileStep(path, u, models, w).error == None
    ensures FileStep(path, u, models, w).models ==
      if ModelSucceeded(ModelOutcome(m, w.token, w.listing(path), w.register)) then models + 1 else models
  {
  }

  /** A Documents definition with one local source naming an existing file that uploads: count 1. */
  lemma SingleLocalFileScenario(path: string, d: DocumentsDef, w: World)
    requires ParseYamlFile(path, w.decode(path)) == Ok(Documents(d))
    requires |d.sources| == 1 && Classify(d.sources[0].locator) == LocalPath
    requires w.stat(w.locate(path, d.sources[0].locator)) == RegularFile
    requires var f := w.locate(path, d.sources[0].locator);
      UploadDocument(w.upload(Attempt(f, d.name, BaseName(f)))).Stored?
    ensures var f := w.locate(path, d.sources[0].locator);
      Run([path], w) == Tally(Uploads(1, [Attempt(f, d.name, BaseName(f))]), 0, None)
  {
    var f := w.locate(path, d.sources[0].locator);
    var a := Attempt(f, d.name, BaseName(f));
    var u0 := Uploads(0, []);
    assert [] + [a] == [a];
    assert SourceStep(path, d.name, d.sources[0], u0, w) == Step(Uploads(1, [a]), None);
    assert d.sources[1..] == [];
    assert SourceSteps(path, d.name, d.sources, u0, w) == Step(Uploads(1, [a]), None);
    assert FileStep(path, u0, 0, w) == Tally(Uploads(1, [a]), 0, None);
    assert [path][1..] == [];
    assert FileSteps([path][1..], Uploads(1, [a]), 0, w) == Tally(Uploads(1, [a]), 0, None);
  }

  /** A Documents definition whose one local source does not exist: nothing uploaded, no error. */
  lemma MissingLocalScenario(path: string, d: DocumentsDef, w: World)
    requires ParseYamlFile(path, w.decode(path)) == Ok(Documents(d))
    requires |d.sources| == 1 && Classify(d.sources[0].locator) == LocalPath
    requires w.stat(w.locate(path, d.sources[0].locator)) == Missing
    ensures Run([path], w) == Tally(Uploads(0, []), 0, None)
  {
    var u0 := Uploads(0, []);
    assert SourceStep(path, d.name, d.sources[0], u0, w) == Step(u0, None);
    assert d.sources[1..] == [];
    assert SourceSteps(path, d.name, d.sources, u0, w) == Step(u0, None);
    assert FileStep(path, u0, 0, w) == Tally(u0, 0, None);
    assert [path][1..] == [];
    assert FileSteps([path][1..], u0, 0, w) == Tally(u0, 0, None);
  }

  /** An unknown-kind file followed by a Documents file: the summary reflects only the second. */
  lemma UnknownThenDocumentsScenario(bad: string, good: string, w: World)
    requires ParseYamlFile(bad, w.decode(bad)).Err?
    ensures Run([bad, good], w) == Run([good], w)
  {
    UnknownKindIsSkipped(bad, [good], Uploads(0, []), 0, w);
    assert [bad, good] == [bad] + [good];
  }
}
