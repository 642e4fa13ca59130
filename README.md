# Test-suite engine of a codec conformance framework, in Dafny

This project models the core of `fluster/test_suite.py`, the part of the codec
conformance framework that:

- selects the test vectors of a run,
- runs them on one of two paths,
- folds the outcomes back into a clone of the suite,
- decides how each vector is downloaded,
- decides which attributes of a suite are written to the suite file.

Modules:

- `Values` (`values.dfy`): the records the engine works on. These are the
  test vector with its `result` and `errors`, the decoder descriptor (name,
  hardware-acceleration flag, answer of the readiness probe), the generated
  test and the harness's failures and errors.
- `Selection` (`selection.dfy`): the name filter of `generate_tests` as a
  specification function, with the lemmas that it keeps exactly the matching
  vectors in their original order.
- `Aggregation` (`aggregation.dfy`): the merge by name of the parallel path,
  its success count, the worker's error accumulation and the sequential
  path's error accumulation, each as a specification function with its
  lemmas. Among them: only the first match is updated, and the merge does
  not depend on the order of returned vectors with distinct names.
- `Download` (`download.dfy`): POSIX `join` and `basename`, the destination
  of a vector's file, the `file_downloaded` flag, and the extraction and
  clean-up decisions.
- `Persist` (`persist.dfy`): the attribute dictionary of a suite, its
  projection to the suite file, and loading, with a save/load round trip.
- `Suite` (`suite.dfy`): the `TestSuite` class.
  - Its methods change the `testVectors` field in place: `GenerateTests`,
    `RunSequentially` and `RunInParallel`, a nested loop with `break`.
  - `Run` works on a fresh clone and leaves the suite itself untouched.
  - `Download` builds one task per vector.
  - The job-count clamp is the function `EffectiveJobs`.

A vector is a value inside the suite's sequence. The source's aliasing
between a test and the vector it refers to is modelled by the vector's
position in the suite's filtered list (`Test.vectorIndex`). Every generated
test carries that position.

Points where the code behaves differently from what its purpose suggests,
followed by the model as the code has them:

- The name filter lower-cases the vector names only, never the filter
  entries. An entry with an upper-case letter therefore matches nothing
  (`Selection.UpperCaseEntriesSelectNothing`).
- A file already present with the recorded checksum is downloaded again
  (see Findings). `Suite.TestSuite.Download` plans every vector with
  `Download.PlanAsWritten`, which always fetches; `Download.PlanFor` is the
  corrected plan, with its property proved beside it.
- A reference run with a filter writes back only the selected vectors:
  `generate_tests` replaces the clone's list before the clone is saved to
  the suite's own file, so every vector that was not selected disappears
  from that file (`Suite.ReferenceRunSavesSelectedOnly`,
  `Suite.UpperCaseFilterSavesNoVectors`).
- On the parallel path the returned errors replace the vector's errors; they
  are not appended.
- The parallel success count looks at the returned vector's whole errors
  list, which keeps the entries the vector carried before its run. A vector
  with recorded errors whose run succeeds prints '.' but is not counted
  (`Aggregation.OldErrorsNeverCountAsSuccess`).
- The parallel worker stores the harness's (test, traceback) pairs in
  `errors`; the sequential path stores the traceback strings. The two kinds
  of entry are told apart by `Diagnostic.ReportedPair` and
  `Diagnostic.Traceback`.
- `Pool` refuses a job count below one. `run` reaches the pool only when
  the effective job count is not one, so a count of zero or less ends in
  `RunOutcome.PoolRefused`, and in `None` plans for `Download`. In `run`
  the refusal comes after the working directory is made and the tests are
  generated on the clone; neither leaves anything the model keeps, so the
  model returns before cloning.

## Model

| member | source | states |
|---|---|---|
| `Values.WasSuccessful` | fluster/test_suite.py:133 | a harness result is successful iff it holds no failure and no error |
| `Values.Lower` | fluster/test_suite.py:240 | the lower-cased name has the same length; each ASCII upper-case letter becomes its lower-case letter, every other character stays, so no upper-case letter is left |
| `Selection.Keeps` | fluster/test_suite.py:239-241 | without a filter (none or an empty list) every vector is kept; under a filter a kept vector's lower-cased name is an entry |
| `Selection.KeptByLowerCaseEntry` | fluster/test_suite.py:239-241 | under a filter a vector is kept iff some entry equals its lower-cased name, and that entry holds no upper-case letter |
| `Selection.Select` | fluster/test_suite.py:238-245 | the kept vectors are never more than the suite's vectors |
| `Selection.SelectWithoutFilter` | fluster/test_suite.py:238-241 | with no filter or an empty filter list every vector is kept, in order |
| `Selection.SelectAtKeptPositions` | fluster/test_suite.py:238-245 | the k-th kept vector is the suite's vector at the k-th kept position |
| `Selection.SelectIsOrderedSubsequence` | fluster/test_suite.py:238-245 | the kept vectors are exactly those whose lower-cased name is a filter entry, at strictly increasing positions, in original order |
| `Selection.SelectMembers` | fluster/test_suite.py:238-241 | a vector is kept iff it belongs to the suite and passes the filter |
| `Selection.UpperCaseEntriesSelectNothing` | fluster/test_suite.py:239-241 | filter entries are not lower-cased: a non-empty filter of entries with an upper-case letter keeps nothing |
| `Aggregation.FirstNamed` | fluster/test_suite.py:176-181 | the merge loop stops at the first vector with the returned name, or finds none; no earlier vector has that name |
| `Aggregation.FirstNamedOnlyReadsNames` | fluster/test_suite.py:176-177 | where the first match lies depends only on the vectors' names |
| `Aggregation.Absorb` | fluster/test_suite.py:177-180 | the matched vector takes the returned result, and the returned errors only when they are non-empty; name, source, checksum and input file stay |
| `Aggregation.MergeOneAt` | fluster/test_suite.py:176-181 | once the first vector with the returned name is known to sit at a position, the step absorbs the returned vector there, or changes nothing when there is none |
| `Aggregation.MergeOne` | fluster/test_suite.py:176-181 | only the first vector with the returned name changes: its result is set and its errors are replaced only when the returned errors are non-empty; no match changes nothing; names, sources, checksums and input files stay |
| `Aggregation.Merge` | fluster/test_suite.py:166-181 | merging keeps the list's length and every vector's name |
| `Aggregation.MergePrefixStep` | fluster/test_suite.py:166-181 | one more returned vector is one more merge step, and adds one to the count iff it has no errors |
| `Aggregation.MergeOneCommutes` | fluster/test_suite.py:176-181 | merging two returned vectors with different names gives the same list in either order |
| `Aggregation.MergeStepAt` | fluster/test_suite.py:176-181 | after a step, the first match in the original list holds the absorbed vector and every other position is unchanged |
| `Aggregation.MergeByPosition` | fluster/test_suite.py:166-181 | with distinct returned names, the first vector with a returned name absorbs that returned vector and every other vector is unchanged |
| `Aggregation.MergeOrderIndependent` | fluster/test_suite.py:166-181 | merging any reordering of returned vectors with distinct names gives the same vectors |
| `Aggregation.CountSuccesses` | fluster/test_suite.py:165-172 | the success count is at most the number of returned vectors |
| `Aggregation.CountSuccessesExtremes` | fluster/test_suite.py:165-172 | the count equals the number returned iff no returned vector has errors, and is zero iff every one has errors |
| `Aggregation.WorkerVector` | fluster/test_suite.py:136-140 | the worker's vector keeps its old errors in front, then gains one entry per failure and one per error, in report order; its other fields stay |
| `Aggregation.Pairs` | fluster/test_suite.py:136-139 | the worker appends one entry per reported failure or error, in report order |
| `Aggregation.WorkerSuccessMatchesHarness` | fluster/test_suite.py:131-139 | a vector sent without errors returns without errors iff its run was successful |
| `Aggregation.WorkerCountMatchesMarks` | fluster/test_suite.py:128-172 | when the vectors start without errors, the merge's success count equals the number of successful runs, which is the number of '.' marks; without that condition the two can differ (`Aggregation.OldErrorsNeverCountAsSuccess`) |
| `Aggregation.OldErrorsNeverCountAsSuccess` | fluster/test_suite.py:133-172 | a vector that reaches the worker with errors already recorded is not counted as a success, even when its run succeeds and prints '.' |
| `Aggregation.AppendReports` | fluster/test_suite.py:150-156 | the sequential path keeps the list's length and every vector's name |
| `Aggregation.AppendReportsPrefixStep` | fluster/test_suite.py:151-156 | one more report appends its traceback to the errors of its test's vector |
| `Aggregation.AppendReportsEffect` | fluster/test_suite.py:150-156 | each vector gains exactly the tracebacks of the reports about it, in report order, and nothing else changes |
| `Download.Basename` | fluster/test_suite.py:95-96 | the basename holds no separator and is a suffix of the path |
| `Download.Join` | fluster/test_suite.py:93-96 | an absolute second component replaces the first; a relative one ends the result, which begins with the first component, with one separator inserted between them exactly when the first is non-empty and does not end in one |
| `Download.BasenameSnoc` | fluster/test_suite.py:95-96 | appending a character that is not a separator extends the basename by it |
| `Download.BasenameOfSuffix` | fluster/test_suite.py:95-96 | a separator-free name after a separator, or alone, is its own basename |
| `Download.BasenameOfJoin` | fluster/test_suite.py:95-96 | joining a separator-free name onto a directory gives a path whose basename is that name |
| `Download.DestDir` | fluster/test_suite.py:93-94 | with a relative vector name the directory's path ends with that name; with relative suite and vector names it begins with the output directory's path (`..` components are not resolved); with an output directory not ending in a separator, a non-empty separator-free suite name and a separator-free vector name it is exactly `out_dir/suite_name/vector_name` |
| `Download.DestPath` | fluster/test_suite.py:95-96 | the file's path begins with its directory's path and has the source's basename; when the directory does not end in a separator it is exactly `dest_dir/basename` |
| `Download.FileDownloaded` | fluster/test_suite.py:99-102 | the flag holds iff the destination file exists and, when verifying, its checksum is the recorded one |
| `Download.Plan` | fluster/test_suite.py:97-111 | the directory is created iff missing; a recognised archive is extracted, only the input file unless everything is asked for; the archive is removed iff it was extracted and is not to be kept |
| `Download.PlanAsWritten` | fluster/test_suite.py:103-104 | as written, the file is fetched whatever the flag says |
| `Download.AsWrittenRefetchesVerifiedFile` | fluster/test_suite.py:99-104 | a present file with the recorded checksum is fetched again although the flag holds |
| `Download.PlanFor` | fluster/test_suite.py:99-111 | corrected: the file is fetched iff it is not already downloaded and verified |
| `Download.RedownloadIsIdempotent` | fluster/test_suite.py:99-104 | a present file with the recorded checksum is not fetched again; a missing file always is |
| `Persist.Attributes` | fluster/test_suite.py:53-63 | a suite instance has exactly the six attributes set by its constructor |
| `Persist.EncodeVectors` | fluster/test_suite.py:86-87 | each vector is written through its own projection, in order |
| `Persist.Serialize` | fluster/test_suite.py:79-88 | the written keys are the instance's attributes minus `filename` and `resources_dir`; the codec is written as its value string, name and description as they are |
| `Persist.SerializeIgnoresRuntimeFields` | fluster/test_suite.py:82-84 | the file path and resource directory never influence what is written |
| `Persist.DecodeVectors` | fluster/test_suite.py:74-75 | decoding keeps the number and order of the raw vectors, each decoded by its own decoder; it succeeds whenever every raw vector decodes |
| `Persist.Deserialize` | fluster/test_suite.py:70-77 | a loaded suite holds the file's name, codec, description and decoded vectors, and needs exactly the constructor's keys and a known codec; conversely keys of that shape, string fields, a known codec and decodable vectors always load |
| `Persist.DecodeEncodedVectors` | fluster/test_suite.py:74-75 | the vector list reads back as it was written when each vector does |
| `Persist.SaveLoadRoundTrip` | fluster/test_suite.py:70-88 | a saved suite loads back as the same suite |
| `Suite.EffectiveJobs` | fluster/test_suite.py:195-196 | the job count never grows; it changes only for a hardware-accelerated decoder, and then becomes 1; such a decoder with at least one job gets exactly 1 |
| `Suite.ReferenceRunSavesSelectedOnly` | fluster/test_suite.py:215-226 | the suite file a reference run writes holds exactly as many vectors as the filter selected, so unselected vectors are dropped from it |
| `Suite.UpperCaseFilterSavesNoVectors` | fluster/test_suite.py:215-226 | a reference run under a filter whose entries all hold an upper-case letter writes a suite file with no vectors |
| `Suite.HardwareAcceleratedRunsSequentially` | fluster/test_suite.py:195-221 | a hardware-accelerated decoder with at least one job takes the sequential path |
| `Suite.TestSuite.constructor` | fluster/test_suite.py:53-63 | every attribute holds its argument |
| `Suite.TestSuite.Clone` | fluster/test_suite.py:65-67 | the clone is a fresh object with the same attributes |
| `Suite.TestSuite.FromJsonFile` | fluster/test_suite.py:69-77 | a fresh suite holding the decoded members and the given file path and resource directory, or nothing when loading fails |
| `Suite.TestSuite.GenerateTests` | fluster/test_suite.py:233-246 | the suite keeps exactly the selected vectors; there is one test per kept vector, and the i-th test is built from the i-th kept vector |
| `Suite.TestSuite.RunWorker` | fluster/test_suite.py:128-140 | the returned vector is the vector with failures and then errors appended; its errors grow by their count, keeping the old ones in front; the mark is 'x' iff the run was not successful |
| `Suite.TestSuite.RunSequentially` | fluster/test_suite.py:142-156 | the new vectors are the old ones with every failure's and then every error's traceback appended to the vector of its test |
| `Suite.TestSuite.RunInParallel` | fluster/test_suite.py:158-183 | the new vectors are the old ones merged with the returned vectors in order; the success count is the number of returned vectors without errors, at most the number of tests |
| `Suite.TestSuite.RunClone` | fluster/test_suite.py:215-223 | the clone keeps the selected vectors with the outcome of the sequential path for one job and of the parallel path otherwise folded in |
| `Suite.TestSuite.Run` | fluster/test_suite.py:185-231 | an unrunnable decoder gives no result; a job count below one is refused by the pool; otherwise a fresh clone holds the selected vectors with the outcome of the chosen path (sequential iff one effective job) folded in; reference mode saves the clone to its own file; the working directory is removed unless files are kept; this suite's vectors are unchanged |
| `Suite.TestSuite.Download` | fluster/test_suite.py:113-126 | one task per vector, in order, with the shared settings and the suite's name; the output directory is created iff missing; a job count below one is refused; every task's plan is the worker's plan as written, so every vector's file is fetched |

## Left out

- Worker-pool dispatch and the copying of vectors between processes are
  left out: this is concurrency. The parallel path takes the list the pool
  returns as an input, and the download plans are computed for every task
  in order.
- The unittest runner is left out, with its `failfast` and verbosity
  handling. The sequential path takes the runner's failures and errors as
  an input. `failfast` and `quiet` are accepted and unused.
- Printing, `perf_counter` timing and the elapsed-time format are left out,
  as is `__str__`.
- File-system calls are left out: `open`, JSON parsing and writing,
  `makedirs`, `remove`, `rmtree`, `exists` and `isdir`. Existence, checksum
  and "is an archive" are uninterpreted functions of a `FileSystem` value,
  read once before the tasks run. Directory creation, fetching, extraction
  and removal are decisions in a plan, not effects. The suite file is the
  parsed map.
- `utils.download`, `utils.file_checksum`, `utils.is_extractable` and
  `utils.extract` are not part of this model. Their results are the
  `FileSystem` functions; their effects are the plan's fields.
- A failure inside one download task aborts the whole download. That is an
  exception path through code not shown, so it is not modelled.
- The `Test` collaborator is not part of this model. Its own run writes
  `result` into the vector, which is not modelled: the worker receives the
  vector as the test left it. On the sequential path only the errors are
  folded in.
- The test keeps its suite only by name.
- `TestVector.from_json`, `TestVector.data_to_serialize` and the `Codec`
  enumeration are not part of this model. They are function parameters:
  `decodeVector`, `encodeVector` and `isCodec`.
- `Values.Lower`: models `str.lower()` for ASCII letters only; Unicode case
  mapping is not modelled.
- `Suite.TestSuite.RunWorker`: of each unittest (test, traceback) pair
  appended to `errors`, only the traceback text is kept
  (`Diagnostic.ReportedPair`).
- `Persist.Deserialize`: rejects a `name` or `description` that is not a
  JSON string. Python would store such a value unchanged. It also requires
  `test_vectors` to be a JSON list, where Python iterates any value, so an
  empty object or an empty string loads there as a suite with no vectors
  (and a non-empty one depends on `TestVector.from_json`, not modelled).
- `Values.WasSuccessful`: `TestResult.wasSuccessful` also checks for
  unexpected successes. That case is not modelled: success means no failures
  and no errors.

## Findings

| source | as written | input that shows it | evidently intended | confidence | as-written member | corrected member |
|---|---|---|---|---|---|---|
| fluster/test_suite.py:99-104 | `file_downloaded` is computed from existence and checksum but never read; `utils.download` runs every time | verify on, the destination file present with the recorded checksum: the file is fetched again | fetch only when `file_downloaded` is false, so that a repeated verified download transfers nothing | medium; not executed | `Download.AsWrittenRefetchesVerifiedFile` | `Download.RedownloadIsIdempotent` |
