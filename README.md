# oictl decision logic in Dafny

`oictl` is a declarative loader. It reads YAML definition files of two kinds:

- `Documents` bundles, whose sources point at a git repository, a URL or a local path;
- `Model` configurations.

For a Documents bundle it resolves every source to a list of files. It then uploads each file in two steps: a multipart POST of the bytes, then a metadata POST that tags the file with the bundle's name. For a Model it looks up which document collections carry the model's knowledge tags, and registers the model with those collections as its knowledge. `handleOictl` drives a batch of definition files and counts the documents and models it loaded.

This project models the decision logic of `main.go` and proves what it does. Every I/O result is passed in as a plain value:

- a directory walk is a sequence of visit and error events;
- a stat is a `PathStat`;
- a clone is `Cloned(dir)` or `NotCloned`;
- each HTTP request is a `TransportError` or a `Response(status)`;
- decoding a YAML file is a `Decoded` record holding what each typed unmarshal produced;
- the document listing is an optional sequence of `Document`s.

`Oictl.World` bundles these inputs for a whole run.

Modules:

- `Results`: the `Option`, `Result` and `Error` types.
- `Text`: prefix and suffix tests, path join and base name.
- `Seqs`: subsequence, occurrence count and repetition.
- `Sources`: locator classification, `hasExtension`, `traverseDirectory`, `handleGitSource`, `processDirectory`.
- `Config`: the kind dispatch of `parseYamlFile`.
- `Upload`: what `uploadDocument` and `fetchUrlContent` return for the outcomes of their requests.
- `Knowledge`: `fetchCollectionNamesForTags` and `processModel`.
- `Oictl`: `handleOictl`.

The loops of the source are methods with loop invariants. Each is proved equal to a recursive specification function, and the properties are proved as lemmas about those functions:

- `TraverseDirectory`, `HandleGitSource` and `ProcessDirectory`;
- `FetchCollectionNamesForTags`, with its three nested loops;
- `CollectTags`, `BuildKnowledgeEntries` and `ProcessModel`;
- `HandleOictl`, with its helpers `ProcessSource` and `UploadFiles`.

`HandleOictl` also returns a ghost log of every `uploadDocument` call it makes, equal to the call log of `Run`; `DocumentCountIsSuccessfulUploads` counts the successful calls in that log.

The tool's written specification is not part of this repository. Where it and the code disagree, the model follows the code:

- **Errors abort the whole run.** A git resolution error, a URL fetch error, a temp-file write error or a walk error makes `handleOictl` return at once (`return err` at main.go:427, 447, 452, 467). The description says such errors abort only the one descriptor.
- **Only status 200 counts.** Every HTTP check compares the status with exactly 200 (`http.StatusOK`). The description speaks of any 2xx status.
- **A metadata POST that fails to be sent is fatal to that file.** A transport error on the metadata POST makes `uploadDocument` return an error (main.go:252-255), so the file is not counted. The specification treats every metadata failure as non-fatal; only a non-200 response is (main.go:258-262).
- **No repository-root fallback.** A repository source with an empty `dir` list selects no files. The description says the repository root is used when no sub-directory is declared.

## Model

| member | source | states |
|---|---|---|
| Sources.ClassifyPrecedence | main.go:424-487 | A locator takes the git branch iff it starts with `git@` or ends with `.git`; otherwise it takes the URL branch iff it starts with `http://` or `https://`; otherwise it is local |
| Sources.GitExamples | main.go:424 | `git@…` and `https://….git` both go to the git branch: the git test wins over the URL prefix |
| Sources.UrlExamples | main.go:444 | `http://` and `https://` locators without `.git` take the URL branch |
| Sources.CaseSensitiveExample | main.go:444-461 | The prefix test is case-sensitive: an `HTTPS://` locator is a local path |
| Sources.LocalExamples | main.go:461-462 | A relative path that is neither a repository nor a URL is local |
| Sources.HasExtension | main.go:134-141 | True exactly when some listed extension is a suffix of the path; so false for an empty list |
| Sources.HasExtensionExamples | main.go:134-141 | An empty list rejects, any matching entry accepts, and matching is case-sensitive |
| Sources.TraverseDirectory | main.go:120-132 | The walk loop returns exactly the walk's file list, and completes exactly when the walk has no error |
| Sources.WalkFilesAccepted | main.go:126 | Every returned path is a non-directory accepted by the filter: an empty list, or `hasExtension` |
| Sources.WalkFilesInOrder | main.go:121-131 | The result is an order-preserving subsequence of the walked non-directory paths |
| Sources.WalkFilesComplete | main.go:123-125 | The walk reports success exactly when no event was an error |
| Sources.WalkFilesMembers | main.go:126-128 | For an error-free walk, a path is returned exactly when it is a walked file that the filter accepts |
| Sources.WalkFilesExact | main.go:121-131 | For an error-free walk, the result is exactly the filter of the walked non-directory paths, in walk order and with repeats kept |
| Sources.WalkFilesUnfiltered | main.go:126 | With no extensions and no error, every walked file is returned, in walk order |
| Sources.HandleGitSource | main.go:143-170 | The selection loop returns the clone error, the first stat or walk error, or the files of every dir concatenated in `dirs` order |
| Sources.MissingDirFails | main.go:153-157 | If any declared dir is missing, the selection is an error and yields no files |
| Sources.NoDirsSelectNothing | main.go:152 | An empty `dirs` list yields no files: there is no fallback to the repository root |
| Sources.SelectDirsAppend | main.go:152-168 | Selecting `d1 + d2` gives the files of `d1` followed by those of `d2`, and stops at the first error |
| Sources.SelectedFilesHaveExtension | main.go:158-167 | With a non-empty extension list, every selected file has one of the extensions |
| Sources.RegularFilesNeedExtensions | main.go:164 | With an empty extension list, dirs that are regular files select nothing |
| Sources.JoinAll | main.go:399-404 | Joins the directory to each name, position by position |
| Sources.ProcessDirectory | main.go:393-407 | A failed listing is an error; otherwise the result is the joined paths of the `.yaml`/`.yml` entries, in listing order |
| Sources.DefinitionPathsExact | main.go:400-404 | A joined name is returned iff the name was listed and ends in `.yaml` or `.yml`; the result is a subsequence of all joined names |
| Sources.JoinPathInjective | main.go:402 | Joining to one directory is injective, so the membership statement is about names |
| Config.ParseByKind | main.go:73-94 | When both decodings succeed they carry one `kind`: `Documents` gives the Documents record, `Model` the Model record, anything else an unknown-kind error |
| Config.ParseDispatch | main.go:79-93 | The Documents record is returned iff its decode succeeded with kind `Documents`; the Model record iff that failed and the Model decode has kind `Model`; otherwise an unknown-kind error |
| Config.UnreadableFileFails | main.go:74-77 | A file that cannot be read is an error before any decoding |
| Upload.UploadCountsAsSuccess | main.go:172-265 | `uploadDocument` returns nil iff the file was read, the binary POST got 200, its body decoded and the metadata POST got any response; the metadata was recorded iff that response was 200 |
| Upload.MetadataRejectionIsNotFatal | main.go:209-262 | A rejected metadata POST still returns nil, while a rejected binary POST is an error |
| Upload.FetchNeedsExactly200 | main.go:101-118 | The fetch yields the body iff the status is exactly 200 and the body was read; every failure is a fetch error for that URL; 201 is a failure |
| Knowledge.FetchCollectionNamesForTags | main.go:297-315 | A failed listing is an error; otherwise the triple loop builds exactly the tag index over the listing |
| Knowledge.AppendMatches | main.go:305-311 | The loop over documents appends, for one tag, every document's hits in document order |
| Knowledge.AppendTagHits | main.go:306-310 | The loop over one document's tags appends its collection name once per tag equal to the requested one |
| Knowledge.MatchesMembers | main.go:305-311 | A collection name is listed for a tag iff some document of that collection carries the tag, compared exactly |
| Knowledge.TagHitsMembers | main.go:306-310 | One document adds its collection name for a tag iff one of its tags equals the requested tag |
| Knowledge.IndexFromKeys | main.go:303-314 | A key is in the map after the loop iff it was there before, or it was requested and matched |
| Knowledge.IndexFromValue | main.go:303-314 | The loop appends a tag's matches, in document order, once for each time the tag was requested |
| Knowledge.CollectionIndexKeys | main.go:303-314 | The keys are exactly the requested tags that some listed document carries; unmatched tags are absent |
| Knowledge.CollectionIndexValue | main.go:303-314 | Each tag's value is its matches in document order, repeated once per request of that tag |
| Knowledge.SingleRequestLookup | main.go:303-314 | A tag requested once maps to exactly its matches, in document order |
| Knowledge.KnowledgeTags | main.go:328-331 | One tag per knowledge item, in declared order |
| Knowledge.CollectTags | main.go:328-331 | The tag-collecting loop returns the knowledge tags in declared order |
| Knowledge.BuildKnowledgeEntries | main.go:338-348 | The entry loop returns one entry per knowledge item whose tag has a non-empty list, in declared order |
| Knowledge.KnowledgeEntriesExact | main.go:338-348 | Each entry has type `collection` and its tag's non-empty list; an item's entry is present iff its list is non-empty; the entry names are a subsequence of the declared tags |
| Knowledge.ProcessModel | main.go:317-391 | `processModel` stops on an empty token or a failed listing; otherwise it posts the payload built from the index and meets the registration outcome |
| Knowledge.ModelPayloadFromListing | main.go:322-364 | With a token and a listing, the payload is posted, its id and name are `metadata.name`, nil params become `{}`, and it holds exactly the items whose tag some document carries, each with its matches |
| Knowledge.EmptyTokenFailsFirst | main.go:318-320 | An empty token is an error before any lookup or post, whatever the listing |
| Knowledge.UnmatchedTagStillRegisters | main.go:338-390 | A model whose only tag matches nothing is still posted, with no knowledge entries |
| Oictl.UploadFiles | main.go:429-477 | The upload loop makes one call per file, in order, and counts the calls that returned nil |
| Oictl.ProcessSource | main.go:423-487 | One source: git selection and upload, URL fetch, write and upload, or local stat and upload, with the errors that end the run |
| Oictl.HandleOictl | main.go:409-509 | The counters, the error returned and the log of upload calls are those of the whole run: the file loop and source loop, skips on `continue`, and a stop on `return err` |
| Oictl.DocumentCountIsSuccessfulUploads | main.go:429-485 | `documentCount` ends equal to the number of `uploadDocument` calls that returned nil, so never more than the calls made |
| Oictl.UploadEachAttempts | main.go:429-470 | Each resolved file is uploaded exactly once, in order, with the bundle's tag and its base name; earlier calls are kept |
| Oictl.MissingLocalSourceIsSkipped | main.go:462-463 | A local path that does not exist adds no upload and no error |
| Oictl.LocalFileIgnoresFilters | main.go:478-479 | A local regular file is uploaded once under its base name, whatever extensions or dirs are declared |
| Oictl.UrlIgnoresFilters | main.go:444-460 | A URL source ignores its dirs and extensions; once fetched and written, it is one upload of the temp file, named by the URL |
| Oictl.GitFailureAborts | main.go:425-428 | When the run reaches a repository source whose clone, stat or walk fails, the run ends there: it returns that error with the counters and calls as they were before that source |
| Oictl.UrlFailureAborts | main.go:445-448 | When the run reaches a URL source whose fetch fails, the run ends there with a fetch error for that URL and the counters as they were |
| Oictl.TempWriteFailureAborts | main.go:449-453 | When the run reaches a fetched URL whose temporary file cannot be written, the run ends there with that error and the counters as they were |
| Oictl.WalkFailureAborts | main.go:464-468 | When the run reaches a local directory whose walk meets an error, the run ends there with a walk error for that path and the counters as they were |
| Oictl.SourceErrorEndsTheRun | main.go:423-428 | Any failing source leaves the uploads unchanged and makes the run's result its error, with the counters at that source |
| Oictl.ErrorStopsTheSources | main.go:423-488 | Once the sources of a file have stopped with an error, no later source is processed |
| Oictl.FailedSourceEndsTheFile | main.go:423-488 | If the first sources succeed and one fails, the file's result is that source's error and state |
| Oictl.FailedFileEndsTheRun | main.go:413-500 | If the first files succeed and one fails, the run's result is that file's error and state |
| Oictl.ErrorStopsTheRun | main.go:427-467 | Once an error has stopped the run, no later file is processed |
| Oictl.UnknownKindIsSkipped | main.go:414-418 | A file that fails to parse is skipped and the batch goes on unchanged |
| Oictl.ModelCountedOnSuccess | main.go:490-496 | A Model file adds no upload and no error, and `modelCount` goes up iff `processModel` returned nil |
| Oictl.SingleLocalFileScenario | main.go:461-485 | One bundle with one existing local file that uploads gives count 1, one recorded call and no error |
| Oictl.MissingLocalScenario | main.go:461-463 | One bundle whose one local path is missing gives count 0, no calls and no error |
| Oictl.UnknownThenDocumentsScenario | main.go:413-418 | An unparseable file before another leaves the run equal to the run of the second alone |

## Left out

- The git subprocess (main.go:96-99), the UUID naming of temporary directories and files, and `os.RemoveAll` (main.go:438-443) are left out. A clone is an input. The temporary directory `handleGitSource` returns as `""` on a stat or walk error is never removed; that leak is not modelled.
- HTTP request building, bearer headers, multipart encoding and JSON encoding and decoding (main.go:172-265, 267-295, 350-390) are left out. Each request's outcome is an input, and the document listing of `getDocs` is an optional sequence.
- `getDocs` is modelled by its result only. Its request is made even when the model declares no knowledge; the model does not distinguish that.
- The type assertions on `collection_name` and `filename` (main.go:220-221) panic when a field is missing. A panic is not modelled: a response without both fields counts as an undecodable body.
- YAML decoding (`yaml.Unmarshal`, main.go:80, 87) is an input. `Spec.ID` and `Spec.Name` are decoded but unused, because the payload's id and name are both `metadata.name`.
- `filepath.Walk`, `os.Stat`, `os.ReadDir`, `filepath.Abs`, `Join`, `Dir` and `Base` reach the file system or clean paths:
  - a walk is a given event sequence;
  - local path resolution is an input function;
  - `JoinPath` is plain `dir + "/" + name`;
  - `BaseName` takes the text after the last `/`, with no cleaning of trailing slashes.
- The local branch stats the path twice (main.go:463-464). The model uses one stat result: if the second stat failed after the first succeeded, `stat` would be nil and `stat.Mode()` would panic. That file-system race is not modelled.
- The `default` case of the type switch (main.go:497-498) cannot be reached: `parseYamlFile` returns only the two record types, and the model's `Definition` type has only those two.
- Console output is left out: progress lines, warnings and the final summary lines (main.go:502-507). So is the `main` bootstrap (main.go:511-536).
- A `knowledgeEntries` slice with nothing appended is nil in Go (main.go:338), so the registration sends `"knowledge": null` (main.go:361). The model's payload holds an empty sequence there; JSON encoding is not modelled. Nil params, by contrast, are replaced by `{}` in the source (main.go:324-326), and that is modelled.
- Every `World` function is a fixed function of its argument, so within one run the environment has no memory:
  - the same `Attempt` always meets the same `UploadCall`, so a file named by two sources cannot succeed once and fail once;
  - the same `ModelPayload` always meets the same registration outcome, so a second, identical registration cannot be rejected;
  - the same repository locator always gets the same temporary directory, while main.go:144-145 names a fresh one each time.
  No proved property depends on this. The model does not cover environments whose answers change during a run.
