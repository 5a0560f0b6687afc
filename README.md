# Dataset indexer and annotator: a Dafny model

This project models the core of a batch pipeline that turns a directory tree of
per-dataset `dataset.json` descriptors into a full-text index, one document per
dataset, together with the small Python script that writes or repairs those
descriptors.

- **Field extraction** (module `FieldExtraction`, with `TagSplit` for Java's
  `String.split(";")`): `indexSingleField` reads one field value from a
  streaming JSON reader and appends (name, value) pairs to a document. There are
  three field shapes:
  - a scalar string: `dataset_id`, `title`, `description`, `author`;
  - a `;`-split string: `tags`;
  - an array of strings: `classes`, `entities`, `literals`, `properties`.
- **Descriptor walk** (module `DescriptorWalk`): the loop in `index()` steps over
  structural tokens and STRING and BOOLEAN values; NUMBER and NULL make it
  hang. It hands every NAME, at any depth, to `indexSingleField`, until the
  reader reports END_DOCUMENT.
- **Indexing session** (module `Indexing`): the `DatasetIndexer` object. It has:
  - three counters (files, bytes, datasets);
  - the document submission after each walk;
  - a commit every 50 documents and a progress report every 10 000;
  - at the end, the writer close, the comparison with the expected count and a
    summary.

  The Lucene index writer and the console are one ordered trace of events.
- **Constructor validation** (module `Configuration`): the constructor checks its
  arguments in a fixed order and throws at the first one that fails.
- **Annotator** (module `Annotator`): `addMetaTags`, `addDownloadInfo`,
  `createDatasetJSONFile` and the `download_info` repair of
  `checkDownloadInfo`. Python dictionaries are `PyDict` objects over maps of JSON
  values. An exception is a `PyError`, and updates made before it stay made.

How the model treats the reader and the files:

- **Reader.** The JSON reader is a `TokenReader`: a fixed token sequence with a
  cursor.
  - Every read either consumes one token or fails and consumes nothing.
  - The token `Malformed` marks where the lexer throws an IOException.
- **Loops that never finish.** Where a Java loop would spin forever without
  consuming anything, the model reports it:
  - `Diverges` for the element loop of an array field;
  - `Hangs` for the descriptor walk;
  - `Hung` for the run.
- **Files.** The file walker is a given sequence of `FileEntry` values, each with
  a name, a size and the file's tokens.

Where the code's behaviour departs from the intended design, the model follows the behaviour:

- `split(";")` drops trailing empty segments. So `"a;b;;"` gives two tags, and
  `";"` gives none.
- A NUMBER or NULL token met by the walk is never consumed, so the walk never
  ends. The same holds for any non-string element inside a recognised array
  field.
- After an IOException, `reader.close()` is skipped. The reader stays open: see
  `Walk`.
- A walk cut short by an IOException still submits its partial document, and
  the dataset is still counted.

Re-reading the same descriptor always yields the same document, because the
walk is a function of the tokens.

## Model

| member | source | states |
|---|---|---|
| FieldExtraction.Extract | eds/src/main/java/dei/unipd/index/DatasetIndexer.java:231-308 | The extraction of one field never moves the cursor back, gives every pair it appends the field's own name, and appends something only for one of the nine recognised names |
| FieldExtraction.ArrayElements | eds/src/main/java/dei/unipd/index/DatasetIndexer.java:262-269 | The element loop of an array field ends normally only just past an END_ARRAY token, and every pair it appends carries the field's name |
| FieldExtraction.IndexSingleField | eds/src/main/java/dei/unipd/index/DatasetIndexer.java:231-308 | The reader's cursor moves exactly as `Extract` says, the document only gains `Extract`'s pairs at its end (earlier pairs unchanged), and the status says whether the field completed, hit a caught IOException or spins forever |
| FieldExtraction.AddAll | eds/src/main/java/dei/unipd/index/DatasetIndexer.java:254-257 | The tag loop appends one pair per piece, in the order of the pieces, after the existing pairs |
| FieldExtraction.IndexStringElements | eds/src/main/java/dei/unipd/index/DatasetIndexer.java:264-269 | The peek loop over string elements and the `endArray()` after it leave the cursor and the document exactly where `ArrayElements` says |
| FieldExtraction.ScalarFieldReadsOneValue | eds/src/main/java/dei/unipd/index/DatasetIndexer.java:234-249 | A scalar field consumes exactly one string (or number) token and appends exactly one pair with its name and that value; on any other token it consumes nothing, appends nothing and reports the caught error |
| FieldExtraction.UnrecognisedFieldIgnored | eds/src/main/java/dei/unipd/index/DatasetIndexer.java:231-303 | A name outside the nine recognised ones consumes nothing and appends nothing |
| FieldExtraction.TagsFieldSplits | eds/src/main/java/dei/unipd/index/DatasetIndexer.java:252-258 | `tags` consumes one string and appends one ("tags", piece) pair per piece of its `split(";")`, in order |
| FieldExtraction.TagsInteriorEmptyKept | eds/src/main/java/dei/unipd/index/DatasetIndexer.java:252-258 | The tags value "a;;b" yields the three pairs a, "" and b |
| FieldExtraction.StringElements | eds/src/main/java/dei/unipd/index/DatasetIndexer.java:264-269 | After BEGIN_ARRAY, k string elements followed by END_ARRAY yield the k pairs in order and leave the cursor just past END_ARRAY |
| FieldExtraction.StringArrayField | eds/src/main/java/dei/unipd/index/DatasetIndexer.java:261-303 | An array field whose elements are all strings appends one pair per element in order and ends just past END_ARRAY; `[]` appends nothing and completes normally |
| FieldExtraction.NonStringElementDiverges | eds/src/main/java/dei/unipd/index/DatasetIndexer.java:264-268 | A non-string element (other than a lexer failure) after k strings is never consumed: the extraction diverges there, with the k pairs already appended |
| TagSplit.Segments | eds/src/main/java/dei/unipd/index/DatasetIndexer.java:254 | Cutting at every ';' gives one more segment than there are separators, none containing ';' |
| TagSplit.DropTrailingEmpty | eds/src/main/java/dei/unipd/index/DatasetIndexer.java:254 | Dropping the trailing empty strings keeps a prefix whose last element is non-empty and removes only empty strings |
| TagSplit.JavaSplitShape | eds/src/main/java/dei/unipd/index/DatasetIndexer.java:254 | No piece of `split(";")` contains ';'; a string without ';' is its own single piece; otherwise the pieces are the segments with only the trailing empty ones removed, so the last piece is never empty |
| TagSplit.JavaSplitRoundTrip | eds/src/main/java/dei/unipd/index/DatasetIndexer.java:254 | The pieces, padded with the dropped empty segments and joined with ';', give back the original string |
| TagSplit.RestorePadding | eds/src/main/java/dei/unipd/index/DatasetIndexer.java:254 | Appending as many empty strings as were dropped restores the sequence of segments |
| TagSplit.SplitKeepsInteriorEmpty | eds/src/main/java/dei/unipd/index/DatasetIndexer.java:254 | "a;;b" splits into "a", "", "b" |
| TagSplit.SplitDropsTrailingEmpty | eds/src/main/java/dei/unipd/index/DatasetIndexer.java:254 | "a;b;;" splits into "a", "b" |
| TagSplit.SplitEmptyAndLoneSeparator | eds/src/main/java/dei/unipd/index/DatasetIndexer.java:254 | "" splits into one empty piece and ";" into none |
| TagSplit.SplitThreeTags | eds/src/main/java/dei/unipd/index/DatasetIndexer.java:254 | "a;b;c" splits into "a", "b", "c" |
| DescriptorWalk.WalkFrom | eds/src/main/java/dei/unipd/index/DatasetIndexer.java:339-366 | The walk stops inside the token sequence, and every pair it appends has one of the nine recognised names |
| DescriptorWalk.Walk | eds/src/main/java/dei/unipd/index/DatasetIndexer.java:336-366 | The walk loop leaves the cursor, the document and the status exactly as `WalkFrom` says, and the reader is closed exactly when END_DOCUMENT was reached (not after a caught IOException) |
| DescriptorWalk.Advance | eds/src/main/java/dei/unipd/index/DatasetIndexer.java:340-358 | One iteration of the walk either moves the cursor forward without changing where and how the whole walk ends, or, when a field extraction spins, is the place where the walk hangs (the relation `Stepped`) |
| DescriptorWalk.NameStepped | eds/src/main/java/dei/unipd/index/DatasetIndexer.java:348-353 | On a NAME, reading the name and extracting its field is one `Stepped` step: past the value when the extraction ends, the walk's hanging point when it spins |
| DescriptorWalk.SkipStepped | eds/src/main/java/dei/unipd/index/DatasetIndexer.java:340-358 | On a structural token, a STRING or a BOOLEAN, consuming that one token is a `Stepped` step that appends nothing |
| DescriptorWalk.NumberOrNullNeverConsumed | eds/src/main/java/dei/unipd/index/DatasetIndexer.java:339-360 | A NUMBER or NULL token at the cursor is never consumed: the walk stays there for good, with nothing appended |
| DescriptorWalk.SkippedStretch | eds/src/main/java/dei/unipd/index/DatasetIndexer.java:340-347 | A stretch of BEGIN/END OBJECT/ARRAY, STRING and BOOLEAN tokens makes no difference to the rest of the walk, so nesting depth never matters |
| DescriptorWalk.NestedFieldExtracted | eds/src/main/java/dei/unipd/index/DatasetIndexer.java:348-353 | A recognised `title` nested in an unrecognised object is still extracted |
| DescriptorWalk.FailureKeepsEarlierPairs | eds/src/main/java/dei/unipd/index/DatasetIndexer.java:335-366 | Example: a scalar field whose value is followed by a lexer failure aborts the walk on that token, with the field's pair kept |
| DescriptorWalk.WalkStopsOnItsToken | eds/src/main/java/dei/unipd/index/DatasetIndexer.java:339-366 | For every token sequence: a finished walk stopped on END_DOCUMENT, and an aborted walk stopped on the token the lexer failed on |
| DescriptorWalk.ArrayElementsReadsUpToStop | eds/src/main/java/dei/unipd/index/DatasetIndexer.java:262-269 | The element loop of an array field gives the same result on any token sequence that agrees up to the token it stops on |
| DescriptorWalk.ExtractReadsUpToStop | eds/src/main/java/dei/unipd/index/DatasetIndexer.java:231-308 | The extraction of a field gives the same result on any token sequence that agrees up to the token it stops on |
| DescriptorWalk.WalkReadsUpToStop | eds/src/main/java/dei/unipd/index/DatasetIndexer.java:339-366 | The walk gives the same stop, pairs and status on any token sequence that agrees up to the token it stops on |
| DescriptorWalk.FailureEndsWalk | eds/src/main/java/dei/unipd/index/DatasetIndexer.java:339-366 | For every token sequence: an aborted walk stopped on a `Malformed` token, and whatever follows that token changes neither the stop, the status nor the pairs extracted before the failure |
| Configuration.ValidateAcceptsExactlyTheValid | eds/src/main/java/dei/unipd/index/DatasetIndexer.java:114-217 | The constructor succeeds if and only if none of its sixteen checks is violated |
| Configuration.CheckAtRank | eds/src/main/java/dei/unipd/index/DatasetIndexer.java:114-217 | Each check has its own position among the sixteen checks |
| Configuration.RejectionIsViolated | eds/src/main/java/dei/unipd/index/DatasetIndexer.java:114-217 | When the constructor throws, the reason it gives is a violated check, and every earlier check passed |
| Configuration.ValidateReportsFirstViolation | eds/src/main/java/dei/unipd/index/DatasetIndexer.java:114-217 | The constructor throws with reason e if and only if e is violated and every check before it passes: it reports the first violation |
| Configuration.NullArgumentsRejected | eds/src/main/java/dei/unipd/index/DatasetIndexer.java:107-189 | A `null` argument always makes the constructor throw; a NullPointerException is thrown only when some argument is `null`; a `null` analyzer always throws one |
| Indexing.DatasetIndexer.constructor | eds/src/main/java/dei/unipd/index/DatasetIndexer.java:203-210 | A new session has zero counters, an empty trace and the expected count it was given |
| Indexing.DatasetIndexer.Open | eds/src/main/java/dei/unipd/index/DatasetIndexer.java:110-221 | The object is created if and only if validation passes, otherwise it fails with the reason validation gives; a created session satisfies the invariant and starts from zero |
| Indexing.DatasetIndexer.VisitFile | eds/src/main/java/dei/unipd/index/DatasetIndexer.java:321-387 | Visiting a file keeps the session invariant and leaves exactly the state `Visit` describes |
| Indexing.DatasetIndexer.IndexDescriptor | eds/src/main/java/dei/unipd/index/DatasetIndexer.java:324-382 | A `dataset.json` is counted with its size, walked into a document and submitted (unless the walk hangs), keeping the invariant |
| Indexing.DatasetIndexer.ReadDescriptor | eds/src/main/java/dei/unipd/index/DatasetIndexer.java:327-366 | A fresh reader and an empty document walked over a file produce `WalkFrom`'s status and pairs |
| Indexing.DatasetIndexer.Submit | eds/src/main/java/dei/unipd/index/DatasetIndexer.java:368-382 | `addDocument`, the count and the commit and progress policy keep the session invariant |
| Indexing.DatasetIndexer.Index | eds/src/main/java/dei/unipd/index/DatasetIndexer.java:315-398 | The state and outcome of a whole run are those of `Run`: every file is visited in order, then the writer is closed, a discrepancy is reported if so, and the summary is printed, unless some descriptor's walk hangs |
| Indexing.VisitCounters | eds/src/main/java/dei/unipd/index/DatasetIndexer.java:324-370 | Any other name leaves the session unchanged; a `dataset.json` adds one file and its size; the visit hangs if and only if the walk does; otherwise one dataset is counted and the walk's document, even a partial one, is the next thing the writer receives |
| Indexing.CommitAndProgressPolicy | eds/src/main/java/dei/unipd/index/DatasetIndexer.java:368-382 | After a submitted document, a commit follows if and only if the new count is a multiple of 50, and a progress report with the counters if and only if it is a multiple of 10 000; nothing else follows, and a report always comes after a commit |
| Indexing.ReportsFallOnCommits | eds/src/main/java/dei/unipd/index/DatasetIndexer.java:374-378 | Every multiple of 10 000 is a multiple of 50 |
| Indexing.MoreFilesKeepsConsistent | eds/src/main/java/dei/unipd/index/DatasetIndexer.java:329-331 | Counting one more file and its bytes keeps the session invariant |
| Indexing.ConsistentCounts | eds/src/main/java/dei/unipd/index/DatasetIndexer.java:370-382 | In a consistent session there are count/50 commits, count/10 000 reports, and count mod 50 documents that a crash would lose, which is at most 49 |
| Indexing.SubmitKeepsConsistent | eds/src/main/java/dei/unipd/index/DatasetIndexer.java:368-382 | Submitting a document keeps one addition per dataset, one commit per full 50 with fewer than 50 uncommitted documents, and one report per full 10 000 |
| Indexing.SubmittedEvents | eds/src/main/java/dei/unipd/index/DatasetIndexer.java:368-382 | An addition followed by an optional commit and an optional report adds one document and at most one commit and one report, and clears the uncommitted count exactly when a commit follows |
| Indexing.VisitKeepsConsistent | eds/src/main/java/dei/unipd/index/DatasetIndexer.java:321-387 | Visiting any file keeps the session invariant |
| Indexing.VisitAllKeepsConsistent | eds/src/main/java/dei/unipd/index/DatasetIndexer.java:319-388 | Visiting any sequence of files keeps the session invariant |
| Indexing.VisitAllCounts | eds/src/main/java/dei/unipd/index/DatasetIndexer.java:319-388 | A walk over the files that visits all of them counts exactly the `dataset.json` files: one file and one dataset each, and their total size |
| Indexing.CompletedRun | eds/src/main/java/dei/unipd/index/DatasetIndexer.java:391-398 | After a completed run no document remains uncommitted, there is one addition per dataset and one commit per full 50, a discrepancy line appears if and only if the count differs from the expected one (and carries both numbers), and the summary comes last |
| Indexing.AllVisitsComplete | eds/src/main/java/dei/unipd/index/DatasetIndexer.java:319-388 | If no descriptor's walk hangs, the walk over the files visits all of them |
| Indexing.TagsDescriptorWalk | eds/src/main/java/dei/unipd/index/DatasetIndexer.java:339-360 | The descriptor `{"tags": t}` yields one pair per piece of t's split and reaches END_DOCUMENT |
| Indexing.ThreeTagsDocument | eds/src/main/java/dei/unipd/index/DatasetIndexer.java:252-258 | `{"tags": "a;b;c"}` becomes the document of the three pairs a, b, c |
| Indexing.VisitTagged | eds/src/main/java/dei/unipd/index/DatasetIndexer.java:324-382 | Below 49 datasets, one more such descriptor adds one file, its size, one dataset and one addition, with no commit and no report |
| Indexing.ThreeDescriptorRun | eds/src/main/java/dei/unipd/index/DatasetIndexer.java:315-398 | Three such descriptors and one `README.md`, from a fresh session: 3 files, 3 datasets, 30 bytes, three additions, no commit, the writer closed, a discrepancy line (e.g. expected 5, indexed 3) exactly when the expected count is not 3, and the summary |
| Annotator.AddMetaTags | python/datasetsAnnotator.py:46-62 | `dataset_json` gains exactly the meta tags present in `dataset`, with their values, and `dataset` is never changed, even when it is `dataset_json` itself |
| Annotator.CopyIfPresent | python/datasetsAnnotator.py:49-50 | One guarded copy adds the key with its value when the source has it and changes nothing else, not even when source and target are one dict |
| Annotator.CopiedOneMore | python/datasetsAnnotator.py:46-62 | Copying the meta tags one by one is copying the set of them already copied |
| Annotator.MetaTagsCopied | python/datasetsAnnotator.py:46-62 | Every meta tag present in the source is copied with its value; no key is created that is neither in the target nor a meta tag of the source; every other key keeps its value |
| Annotator.MetaTagsIdempotent | python/datasetsAnnotator.py:46-62 | Copying the meta tags twice is copying them once |
| Annotator.AddDownloadInfo | python/datasetsAnnotator.py:69-74 | The target's items and the exception raised are those of `DownloadInfoAdded`, with `downloaded` written before `len(dataset["download"])` is evaluated |
| Annotator.DownloadInfoWrites | python/datasetsAnnotator.py:71-74 | Without a nested `download_info` the call raises KeyError and changes nothing; it succeeds if and only if that dict exists and `download` has a length; then `downloaded` is the entry count, `total_URLS` the length, and every other key is kept |
| Annotator.CreateDatasetJsonFile | python/datasetsAnnotator.py:16-27 | As written, given the entry count, building the descriptor always stops with KeyError on `download_info`, so `mined` is never set and nothing is written |
| Annotator.CreateDatasetJsonFileCorrected | python/datasetsAnnotator.py:16-27 | With the nested dict created, the descriptor is written if and only if `download` has a length; it holds exactly `download_info`, `mined` (false) and the meta tags present, with the entry count and the number of URLs |
| Annotator.NormalisedInfoProperties | python/datasetsAnnotator.py:96-112 | The repair completes if and only if a `Downloaded` key comes with `Total_URLS`, the recorded count compares with a number and `download` has a length; a `Downloaded` without `Total_URLS` raises KeyError; a completed repair leaves no `Downloaded`, keeps `Total_URLS` only when there was no `Downloaded`, sets `downloaded` to max(recorded, entries - 1) and `total_URLS` to the length, and keeps every other key |
| Annotator.NormalisedInfoIdempotent | python/datasetsAnnotator.py:96-112 | Repairing a repaired `download_info` again changes nothing |
| Annotator.NormaliseEntry | python/datasetsAnnotator.py:96-112 | The step-by-step deletions and writes on the list entry leave exactly `NormalisedEntry`'s dict and exception, including the partial updates before an exception |
| Annotator.CheckDownloadInfo | python/datasetsAnnotator.py:86-123 | The file written and the list entry left behind are those of `CheckedAsWritten` |
| Annotator.CheckAsWrittenKeepsFile | python/datasetsAnnotator.py:95-123 | As written, given the entry count, a rewritten `dataset.json` is the one that was loaded, and one without `download_info` is never rewritten, failing with KeyError |
| Annotator.LegacyKeysSurvive | python/datasetsAnnotator.py:99-112 | Given the entry count: a descriptor with `Downloaded` 3 and `Total_URLS` 4, five entries and four URLs: the entry gets `downloaded` 4 and `total_URLS` 4, while the file keeps the legacy keys |
| Annotator.CheckDownloadInfoCorrected | python/datasetsAnnotator.py:95-115 | A descriptor without `download_info` gets a new one, written exactly when the list entry's `download` has a length, holding `downloaded` = the entry count and `total_URLS` = that length; otherwise KeyError or TypeError as `addDownloadInfo` raises; a `download_info` that is not a dict raises TypeError; on success every other key of the descriptor keeps its value |
| Annotator.CorrectedCheckRepairsFile | python/datasetsAnnotator.py:95-115 | The corrected check writes a descriptor whose `download_info` has no `Downloaded`, records at least entries - 1 downloads and the list entry's number of URLs, and keeps every other top-level key |
| Annotator.CorrectedCheckIdempotent | python/datasetsAnnotator.py:95-115 | Running the corrected check on the file it wrote writes the same file again |

## Left out

- Lucene (the index writer, its configuration, the analyzer, the `DatasetField` class): the writer is the ordered trace of `AddDocument`, `Commit` and `Close` events, and a field is a (name, value) pair. Failures of `addDocument`, `commit` and `close` are not modelled; the model's writer never fails.
- Nesting depth of the token stream: the walk keeps none, and past the end of a token sequence the reader reports END_DOCUMENT. Gson does that only at the top level and otherwise throws EOFException, so a token sequence for an input that ends early inside an object or array must end with `Malformed`.
- Gson's lexer and its exception classes: a lexer failure is the token `Malformed`. A read of the wrong token kind is modelled as the IOException that the handlers catch. Gson itself throws IllegalStateException there, which escapes both handlers and would end the run.
- `Files.walkFileTree`, `Files.size` and `new FileReader`: the files come as a given sequence of name, size and tokens. An I/O error while opening a file or reading its size, which would escape `visitFile`, is not modelled.
- The constructor's filesystem checks, `Charset.forName` and opening the index writer: these are booleans in `Environment`. The resolved charset is never used to read files.
- Indexing.DatasetIndexer.Index: a walk that never ends is reported as `Hung`, where the Java run simply never returns. The counters are unbounded naturals, so Java `long` overflow is not modelled.
- Timing and output formatting: elapsed seconds, `printf` and the division by `MBYTE`. `Progress` and `Summary` carry the counters with the size in bytes.
- The Java `main` methods, the hard-coded paths and the stop-list loading.
- The annotator's `main`, which loops over the dataset list and chooses between creating and checking a descriptor by `os.path.exists`.
- Python I/O: `json.load`, `json.dumps`, `open`, `write`, `close` and `os.path.exists`. The loaded descriptor is taken to be a JSON object. JSON floating-point numbers are not modelled.
- `len(os.scandir(path))`: a scandir iterator has no length, so this call raises TypeError. The model instead takes the number of entries of the dataset directory as the parameter `entries`. Each member below inherits this assumption.
- Annotator.AddDownloadInfo: takes the directory listing's length to be `entries`, not the TypeError the call raises at that line.
- Annotator.NormaliseEntry: takes the directory listing's length to be `entries`, not the TypeError the call raises after the legacy keys are deleted.
- Annotator.CheckDownloadInfo: inherits the `entries` parameter from the two members above.
- Annotator.CreateDatasetJsonFile: its KeyError at the nested `download_info` write holds given the entry count; as written, the listing's length raises TypeError one line earlier.
- Annotator.CheckAsWrittenKeepsFile: the unchanged rewrite and the KeyError hold given the entry count; as written, the listing's length raises TypeError before the write, or before the nested lookup.
- Annotator.LegacyKeysSurvive: the example takes the entry count 5; as written, the listing's length raises TypeError before the file is written.
- Nested dictionaries are values inside the model's maps. Aliasing between two nested dicts is not modelled; only the two top-level dicts of `addMetaTags` may be one object.

## Findings

| source | as written | input that shows it | evidently intended | confidence | as-written member | corrected member |
|---|---|---|---|---|---|---|
| python/datasetsAnnotator.py:73 | `createDatasetJSONFile` starts from `{}` and never creates `dataset_json["download_info"]` before `addDownloadInfo` writes into it, so, given the entry count, every call raises KeyError and no descriptor is written | any dataset, e.g. `{"title": "t", "download": []}` | create the nested dict holding `downloaded` and `total_URLS`, then set `mined` to false and write the file | high; not executed | Annotator.CreateDatasetJsonFile | Annotator.CreateDatasetJsonFileCorrected |
| python/datasetsAnnotator.py:115 | the `else` branch calls `addDownloadInfo` on a loaded descriptor that, by the branch's own test, has no `download_info`, so, given the entry count, it raises KeyError and the file is never rewritten | a loaded descriptor `{}` | give the descriptor a new `download_info` | high; not executed | Annotator.CheckAsWrittenKeepsFile | Annotator.CheckDownloadInfoCorrected |
| python/datasetsAnnotator.py:99-112 | the repair edits the list entry `dataset` instead of the loaded `dataset_json`, so, given the entry count, the file is written back unchanged with its `Downloaded` and `Total_URLS` keys | `download_info` = {Downloaded: 3, Total_URLS: 4} in both, 5 entries, 4 URLs | repair the loaded descriptor, taking the URLs from the list entry | high; not executed | Annotator.LegacyKeysSurvive | Annotator.CorrectedCheckRepairsFile |
