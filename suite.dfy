/** The test suite object: selecting the vectors of a run, running them
    sequentially or in parallel, folding the outcomes back, deciding how many
    jobs to use, and downloading the vectors. */
module Suite {
  import opened Values
  import opened Selection
  import opened Aggregation
  import opened Download
  import opened Persist

  /** The number of jobs `run` uses: a decoder with hardware acceleration is
      never given more than one job. */
  function EffectiveJobs(jobs: int, decoder: Decoder): (j: int)
    ensures j <= jobs
    ensures j != jobs ==> decoder.hwAcceleration && j == 1
    ensures decoder.hwAcceleration && jobs >= 1 ==> j == 1
  {
    if decoder.hwAcceleration && jobs > 1 then 1 else jobs
  }

  /** A hardware-accelerated decoder, given a usable job count, always takes
      the sequential path. */
  lemma HardwareAcceleratedRunsSequentially(jobs: int, decoder: Decoder)
    requires decoder.hwAcceleration && jobs >= 1
    ensures Sequential(EffectiveJobs(jobs, decoder))
  {
  }

  /** `run` takes the sequential path exactly when it uses one job. */
  predicate Sequential(jobs: int) {
    jobs == 1
  }

  /** The vectors of a completed run: the selected vectors with the outcome of
      the path taken folded in. */
  function RunVectors(vs: seq<TestVector>, filter: Option<seq<string>>, jobs: int,
                      harness: TestResult, returned: seq<TestVector>): seq<TestVector>
    requires Sequential(jobs) ==>
               ReportsInRange(Select(vs, filter), harness.failures) &&
               ReportsInRange(Select(vs, filter), harness.errors)
  {
    var selected := Select(vs, filter);
    if Sequential(jobs) then AppendReports(AppendReports(selected, harness.failures), harness.errors)
    else Merge(selected, returned)
  }

  /** A reference run writes back only the selected vectors: with a filter,
      every vector that was not selected is missing from the saved suite
      file. */
  lemma {:induction false} ReferenceRunSavesSelectedOnly(
      filename: string, resourcesDir: string, d: SuiteData, filter: Option<seq<string>>, jobs: int,
      harness: TestResult, returned: seq<TestVector>, encodeVector: TestVector -> Json)
    requires Sequential(jobs) ==>
               ReportsInRange(Select(d.testVectors, filter), harness.failures) &&
               ReportsInRange(Select(d.testVectors, filter), harness.errors)
    ensures var saved := Serialize(filename, resourcesDir,
                                   d.(testVectors := RunVectors(d.testVectors, filter, jobs, harness, returned)), encodeVector);
            saved["test_vectors"].JList? &&
            |saved["test_vectors"].items| == |Select(d.testVectors, filter)|
  {
    var selected := Select(d.testVectors, filter);
    if Sequential(jobs) {
      var once := AppendReports(selected, harness.failures);
      assert SameNames(selected, once);
      assert SameNames(once, AppendReports(once, harness.errors));
    } else {
      assert SameNames(selected, Merge(selected, returned));
    }
  }

  /** Under a filter that keeps nothing, such as one whose entries all hold an
      upper-case letter, a reference run saves a suite with no vectors. (The
      sequential path then has nothing the harness could report on.) */
  lemma UpperCaseFilterSavesNoVectors(
      filename: string, resourcesDir: string, d: SuiteData, entries: seq<string>, jobs: int,
      harness: TestResult, returned: seq<TestVector>, encodeVector: TestVector -> Json)
    requires entries != []
    requires forall e :: e in entries ==> exists i :: 0 <= i < |e| && IsUpper(e[i])
    requires Sequential(jobs) ==> harness == TestResult([], [])
    ensures Serialize(filename, resourcesDir,
                      d.(testVectors := RunVectors(d.testVectors, Some(entries), jobs, harness, returned)), encodeVector)
              ["test_vectors"] == JList([])
  {
    UpperCaseEntriesSelectNothing(d.testVectors, entries);
    ReferenceRunSavesSelectedOnly(filename, resourcesDir, d, Some(entries), jobs, harness, returned, encodeVector);
  }

  /** What `run` ends with: skipped because the decoder cannot run (`None`),
      refused by the worker pool because the job count is below one, or
      completed with the updated clone, the working directory used, the suite
      file written in reference mode, and whether the working directory is
      removed afterwards. */
  datatype RunOutcome =
    | Skipped
    | PoolRefused
    | Completed(suite: TestSuite, workDir: string,
                saved: Option<(string, map<string, Json>)>, removeWorkDir: bool)

  class TestSuite {
    // Not persisted.
    var filename: string
    var resourcesDir: string
    // Persisted.
    var name: string
    var codec: Codec
    var description: string
    var testVectors: seq<TestVector>

    /** The persisted members. */
    function Data(): (d: SuiteData)
      reads this
    {
      SuiteData(name, codec, description, testVectors)
    }

    constructor (filename: string, resourcesDir: string, name: string, codec: Codec,
                 description: string, testVectors: seq<TestVector>)
      ensures this.filename == filename && this.resourcesDir == resourcesDir
      ensures Data() == SuiteData(name, codec, description, testVectors)
    {
      this.filename := filename;
      this.resourcesDir := resourcesDir;
      this.name := name;
      this.codec := codec;
      this.description := description;
      this.testVectors := testVectors;
    }

    /** A copy that shares no mutable state with this suite. */
    method Clone() returns (c: TestSuite)
      ensures fresh(c)
      ensures c.filename == filename && c.resourcesDir == resourcesDir && c.Data() == Data()
    {
      c := new TestSuite(filename, resourcesDir, name, codec, description, testVectors);
    }

    /** Build a suite from a parsed suite file; `None` where loading raises. */
    static method FromJsonFile(filename: string, resourcesDir: string, data: map<string, Json>,
                               decodeVector: Json -> Option<TestVector>, isCodec: string -> bool)
      returns (s: Option<TestSuite>)
      ensures s.None? <==> Deserialize(data, decodeVector, isCodec).None?
      ensures s.Some? ==> fresh(s.value) && s.value.filename == filename && s.value.resourcesDir == resourcesDir &&
                          s.value.Data() == Deserialize(data, decodeVector, isCodec).value
    {
      match Deserialize(data, decodeVector, isCodec)
      case None =>
        s := None;
      case Some(d) =>
        var suite := new TestSuite(filename, resourcesDir, d.name, d.codec, d.description, d.testVectors);
        s := Some(suite);
    }

    /** One generated test per kept vector, in order; the suite keeps exactly
        the kept vectors. */
    method GenerateTests(decoder: Decoder, resultsDir: string, reference: bool,
                         filter: Option<seq<string>>, timeout: int, keepFiles: bool)
      returns (tests: seq<Test>)
      modifies this`testVectors
      ensures testVectors == Select(old(testVectors), filter)
      ensures |tests| == |testVectors|
      ensures forall i :: 0 <= i < |tests| ==>
                tests[i] == Test(decoder, name, testVectors[i], i, resultsDir, reference, timeout, keepFiles)
    {
      var vs := testVectors;
      tests := [];
      var run: seq<TestVector> := [];
      for i := 0 to |vs|
        invariant run == Select(vs[..i], filter)
        invariant |tests| == |run|
        invariant forall k :: 0 <= k < |tests| ==>
                    tests[k] == Test(decoder, name, run[k], k, resultsDir, reference, timeout, keepFiles)
      {
        assert vs[..i + 1][..i] == vs[..i];
        var v := vs[i];
        if filter.Some? && filter.value != [] {
          if Lower(v.name) !in filter.value {
            continue;
          }
        }
        tests := tests + [Test(decoder, name, v, |run|, resultsDir, reference, timeout, keepFiles)];
        run := run + [v];
      }
      assert vs[..|vs|] == vs;
      testVectors := run;
    }

    /** A parallel worker: the vector it got (as the test left it) comes back
        with the harness's failures and then its errors appended, together
        with the progress mark, 'x' exactly when the run was not successful. */
    method RunWorker(test: Test, res: TestResult) returns (returned: TestVector, mark: char)
      ensures returned == WorkerVector(test.vector, res)
      ensures |returned.errors| == |test.vector.errors| + |res.failures| + |res.errors|
      ensures returned.errors[..|test.vector.errors|] == test.vector.errors
      ensures mark == 'x' <==> !WasSuccessful(res)
      ensures mark == '.' || mark == 'x'
    {
      var v := test.vector;
      mark := '.';
      if !WasSuccessful(res) {
        mark := 'x';
      }
      if res.failures != [] {
        v := v.(errors := v.errors + Pairs(res.failures));
      }
      if res.errors != [] {
        v := v.(errors := v.errors + Pairs(res.errors));
      }
      returned := v;
    }

    /** The sequential path: after the harness ran the tests, every reported
        failure and then every reported error is appended to the errors of the
        vector its test refers to. */
    method RunSequentially(tests: seq<Test>, failfast: bool, quiet: bool, res: TestResult)
      requires ReportsInRange(testVectors, res.failures)
      requires ReportsInRange(testVectors, res.errors)
      modifies this`testVectors
      ensures testVectors == AppendReports(AppendReports(old(testVectors), res.failures), res.errors)
    {
      ghost var start := testVectors;
      for k := 0 to |res.failures|
        invariant testVectors == AppendReports(start, res.failures[..k])
      {
        AppendReportsPrefixStep(start, res.failures, k);
        var r := res.failures[k];
        var j := r.test.vectorIndex;
        testVectors := testVectors[j := testVectors[j].(errors := testVectors[j].errors + [Traceback(r.traceback)])];
      }
      assert res.failures[..|res.failures|] == res.failures;
      ghost var middle := testVectors;
      for k := 0 to |res.errors|
        invariant testVectors == AppendReports(middle, res.errors[..k])
      {
        AppendReportsPrefixStep(middle, res.errors, k);
        var r := res.errors[k];
        var j := r.test.vectorIndex;
        testVectors := testVectors[j := testVectors[j].(errors := testVectors[j].errors + [Traceback(r.traceback)])];
      }
      assert res.errors[..|res.errors|] == res.errors;
    }

    /** The parallel path once every worker has returned: each returned vector
        is folded into the first suite vector of the same name, and the
        returned vectors without errors are counted as successes. */
    method RunInParallel(jobs: int, tests: seq<Test>, returned: seq<TestVector>) returns (success: nat)
      requires jobs >= 1
      requires |returned| == |tests|
      modifies this`testVectors
      ensures testVectors == Merge(old(testVectors), returned)
      ensures success == CountSuccesses(returned) && success <= |tests|
    {
      ghost var start := testVectors;
      success := 0;
      for k := 0 to |returned|
        invariant testVectors == Merge(start, returned[..k])
        invariant success == CountSuccesses(returned[..k])
      {
        MergePrefixStep(start, returned, k);
        var res := returned[k];
        if res.errors == [] {
          success := success + 1;
        }
        ghost var before := testVectors;
        var j := 0;
        while j < |testVectors|
          invariant j <= |testVectors| && testVectors == before
          invariant forall i :: 0 <= i < j ==> testVectors[i].name != res.name
        {
          if testVectors[j].name == res.name {
            testVectors := testVectors[j := testVectors[j].(result := res.result)];
            if res.errors != [] {
              testVectors := testVectors[j := testVectors[j].(errors := res.errors)];
            }
            assert testVectors == before[j := Absorb(before[j], res)];
            MergeOneAt(before, res, j);
            break;
          }
          j := j + 1;
        }
        if j == |before| {
          MergeOneAt(before, res, j);
        }
        assert testVectors == MergeOne(before, res);
      }
      assert returned[..|returned|] == returned;
    }

    /** The part of `run` that works on the clone: generate the tests for the
        kept vectors, then take the sequential path for one job and the
        parallel path otherwise. */
    method RunClone(jobs: int, decoder: Decoder, timeout: int, failfast: bool, quiet: bool, workDir: string,
                    reference: bool, filter: Option<seq<string>>, keepFiles: bool,
                    harness: TestResult, returned: seq<TestVector>)
      requires jobs >= 1
      requires Sequential(jobs) ==>
                 ReportsInRange(Select(testVectors, filter), harness.failures) &&
                 ReportsInRange(Select(testVectors, filter), harness.errors)
      requires !Sequential(jobs) ==> |returned| == |Select(testVectors, filter)|
      modifies this`testVectors
      ensures testVectors == RunVectors(old(testVectors), filter, jobs, harness, returned)
    {
      var tests := GenerateTests(decoder, workDir, reference, filter, timeout, keepFiles);
      if jobs == 1 {
        RunSequentially(tests, failfast, quiet, harness);
      } else {
        var success := RunInParallel(jobs, tests, returned);
      }
    }

    /** `run`: pick the job count, give up if the decoder cannot run, then
        work on a clone only -- select, run on the chosen path and fold the
        outcome in -- and leave this suite untouched. The harness's report
        (for the sequential path) and the workers' returned vectors (for the
        parallel path) are inputs. The pool's refusal of a job count below
        one is raised before any test runs; the working directory made before
        it stays on disk, and nothing else it leaves is one the model keeps. */
    method Run(jobs: int, decoder: Decoder, timeout: int, failfast: bool, quiet: bool, resultsDir: string,
               reference: bool, filter: Option<seq<string>>, keepFiles: bool,
               harness: TestResult, returned: seq<TestVector>, encodeVector: TestVector -> Json)
      returns (outcome: RunOutcome)
      requires Sequential(EffectiveJobs(jobs, decoder)) ==>
                 ReportsInRange(Select(testVectors, filter), harness.failures) &&
                 ReportsInRange(Select(testVectors, filter), harness.errors)
      requires !Sequential(EffectiveJobs(jobs, decoder)) ==> |returned| == |Select(testVectors, filter)|
      ensures outcome.Skipped? <==> !decoder.canRun
      ensures outcome.PoolRefused? <==> decoder.canRun && EffectiveJobs(jobs, decoder) < 1
      ensures outcome.Completed? ==>
                fresh(outcome.suite) &&
                outcome.suite.filename == filename && outcome.suite.resourcesDir == resourcesDir &&
                outcome.suite.name == name && outcome.suite.codec == codec &&
                outcome.suite.description == description &&
                outcome.suite.testVectors == RunVectors(testVectors, filter, EffectiveJobs(jobs, decoder), harness, returned) &&
                outcome.workDir == Join(Join(resultsDir, name), "test_results") &&
                outcome.saved == (if reference then Some((filename, Serialize(filename, resourcesDir, outcome.suite.Data(), encodeVector))) else None) &&
                outcome.removeWorkDir == !keepFiles
      ensures testVectors == old(testVectors)
    {
      var j := EffectiveJobs(jobs, decoder);
      if !decoder.canRun {
        return Skipped;
      }
      var workDir := Join(Join(resultsDir, name), "test_results");
      if j < 1 {
        return PoolRefused;
      }
      var suite := Clone();
      suite.RunClone(j, decoder, timeout, failfast, quiet, workDir, reference, filter, keepFiles, harness, returned);
      var saved := if reference then Some((suite.filename, Serialize(suite.filename, suite.resourcesDir, suite.Data(), encodeVector))) else None;
      outcome := Completed(suite, workDir, saved, !keepFiles);
    }

    /** `download`: one task per vector, in order, each carrying the shared
        settings and the suite's name; the pool refuses fewer than one job;
        otherwise every task's plan is the worker's decision for its vector,
        as the worker is written: every vector's file is fetched. */
    method Download(jobs: int, outDir: string, verify: bool, extractAll: bool, keepFile: bool, fs: FileSystem)
      returns (makeOutDir: bool, tasks: seq<DownloadWork>, plans: Option<seq<DownloadPlan>>)
      ensures makeOutDir <==> !fs.present(outDir)
      ensures |tasks| == |testVectors|
      ensures forall i :: 0 <= i < |tasks| ==>
                tasks[i] == DownloadWork(outDir, verify, extractAll, keepFile, name, testVectors[i])
      ensures plans.None? <==> jobs < 1
      ensures plans.Some? ==> |plans.value| == |tasks|
      ensures plans.Some? ==> forall i :: 0 <= i < |tasks| ==> plans.value[i] == PlanAsWritten(tasks[i], fs)
    {
      makeOutDir := !fs.present(outDir);
      tasks := [];
      for i := 0 to |testVectors|
        invariant |tasks| == i
        invariant forall k :: 0 <= k < i ==>
                    tasks[k] == DownloadWork(outDir, verify, extractAll, keepFile, name, testVectors[k])
      {
        tasks := tasks + [DownloadWork(outDir, verify, extractAll, keepFile, name, testVectors[i])];
      }
      if jobs < 1 {
        plans := None;
      } else {
        plans := Some(seq(|tasks|, k requires 0 <= k < |tasks| => PlanAsWritten(tasks[k], fs)));
      }
    }
  }
}
