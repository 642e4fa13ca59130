/** Folding run outcomes back into the suite's vectors: the parallel merge by
    name with its success count, the worker's error accumulation and the
    sequential path's error accumulation. */
module Aggregation {
  import opened Values

  /** Position of the first vector called `name`, or `|vs|` when none is. */
  function FirstNamed(vs: seq<TestVector>, name: string): (i: nat)
    ensures i <= |vs|
    ensures i < |vs| ==> vs[i].name == name
    ensures forall k :: 0 <= k < i ==> vs[k].name != name
  {
    if vs == [] then 0
    else if vs[0].name == name then 0
    else 1 + FirstNamed(vs[1..], name)
  }

  /** Two vector lists with the same names position by position. */
  predicate SameNames(vs: seq<TestVector>, ws: seq<TestVector>) {
    |vs| == |ws| && forall i :: 0 <= i < |vs| ==> vs[i].name == ws[i].name
  }

  /** Only the names decide where the first match is. */
  lemma {:induction false} FirstNamedOnlyReadsNames(vs: seq<TestVector>, ws: seq<TestVector>, name: string)
    requires SameNames(vs, ws)
    ensures FirstNamed(vs, name) == FirstNamed(ws, name)
  {
    if vs != [] && vs[0].name != name {
      FirstNamedOnlyReadsNames(vs[1..], ws[1..], name);
    }
  }

  /** Vector `v` after absorbing the returned vector `ret`: the result is
      always taken, the errors only when the returned list is non-empty. */
  function Absorb(v: TestVector, ret: TestVector): (r: TestVector)
    ensures r.name == v.name && r.source == v.source
    ensures r.sourceChecksum == v.sourceChecksum && r.inputFile == v.inputFile
    ensures r.result == ret.result
    ensures r.errors == (if ret.errors == [] then v.errors else ret.errors)
  {
    v.(result := ret.result, errors := if ret.errors != [] then ret.errors else v.errors)
  }

  /** One step of the merge loop: only the first vector named like `ret` is
      updated; everything else, and everything when no name matches, stays. */
  function MergeOne(vs: seq<TestVector>, ret: TestVector): (r: seq<TestVector>)
    ensures SameNames(vs, r)
    ensures FirstNamed(vs, ret.name) == |vs| ==> r == vs
    ensures forall i :: 0 <= i < |vs| && i != FirstNamed(vs, ret.name) ==> r[i] == vs[i]
    ensures FirstNamed(vs, ret.name) < |vs| ==>
              var i := FirstNamed(vs, ret.name);
              r[i].result == ret.result &&
              r[i].errors == (if ret.errors == [] then vs[i].errors else ret.errors) &&
              r[i].name == vs[i].name && r[i].source == vs[i].source &&
              r[i].sourceChecksum == vs[i].sourceChecksum && r[i].inputFile == vs[i].inputFile
  {
    var i := FirstNamed(vs, ret.name);
    if i == |vs| then vs else vs[i := Absorb(vs[i], ret)]
  }

  /** The merge loop over the returned vectors, in the order returned. */
  function Merge(vs: seq<TestVector>, returned: seq<TestVector>): (r: seq<TestVector>)
    ensures SameNames(vs, r)
  {
    if returned == [] then vs
    else MergeOne(Merge(vs, returned[..|returned| - 1]), returned[|returned| - 1])
  }

  /** `MergeOne` once the first vector named like `ret` is known to sit at
      position `j` (`|vs|` for none). */
  lemma MergeOneAt(vs: seq<TestVector>, ret: TestVector, j: nat)
    requires j <= |vs| && forall i :: 0 <= i < j ==> vs[i].name != ret.name
    requires j < |vs| ==> vs[j].name == ret.name
    ensures MergeOne(vs, ret) == if j == |vs| then vs else vs[j := Absorb(vs[j], ret)]
  {
    assert FirstNamed(vs, ret.name) == j;
  }

  /** One more returned vector is one more merge step. */
  lemma MergePrefixStep(vs: seq<TestVector>, returned: seq<TestVector>, k: nat)
    requires k < |returned|
    ensures Merge(vs, returned[..k + 1]) == MergeOne(Merge(vs, returned[..k]), returned[k])
    ensures CountSuccesses(returned[..k + 1]) == CountSuccesses(returned[..k]) + (if returned[k].errors == [] then 1 else 0)
  {
    assert returned[..k + 1][..k] == returned[..k];
  }

  /** Merging two returned vectors with different names commutes. */
  lemma MergeOneCommutes(vs: seq<TestVector>, a: TestVector, b: TestVector)
    requires a.name != b.name
    ensures MergeOne(MergeOne(vs, a), b) == MergeOne(MergeOne(vs, b), a)
  {
    FirstNamedOnlyReadsNames(vs, MergeOne(vs, a), b.name);
    FirstNamedOnlyReadsNames(vs, MergeOne(vs, b), a.name);
  }

  /** Returned vectors whose names are pairwise distinct. */
  predicate DistinctNames(rs: seq<TestVector>) {
    forall k, l :: 0 <= k < l < |rs| ==> rs[k].name != rs[l].name
  }

  /** No returned vector has its first match at position `i`. */
  predicate Untouched(vs: seq<TestVector>, returned: seq<TestVector>, i: nat) {
    forall k :: 0 <= k < |returned| ==> FirstNamed(vs, returned[k].name) != i
  }

  /** One merge step seen from the original list `vs`: the first match of the
      step's name is found at the same position as in `vs`. */
  lemma MergeStepAt(vs: seq<TestVector>, m: seq<TestVector>, ret: TestVector, i: nat)
    requires SameNames(vs, m) && i < |vs|
    ensures MergeOne(m, ret)[i] == if FirstNamed(vs, ret.name) == i then Absorb(m[i], ret) else m[i]
  {
    FirstNamedOnlyReadsNames(vs, m, ret.name);
  }

  /** With pairwise distinct returned names, the merge is described position
      by position, independently of the order of `returned`: the first vector
      carrying a returned name absorbs that returned vector, every other vector
      is unchanged. */
  lemma {:induction false} MergeByPosition(vs: seq<TestVector>, returned: seq<TestVector>)
    requires DistinctNames(returned)
    ensures forall i, k :: 0 <= i < |vs| && 0 <= k < |returned| && FirstNamed(vs, returned[k].name) == i ==>
              Merge(vs, returned)[i] == Absorb(vs[i], returned[k])
    ensures forall i :: 0 <= i < |vs| && Untouched(vs, returned, i) ==> Merge(vs, returned)[i] == vs[i]
  {
    if returned != [] {
      var n := |returned|;
      var init := returned[..n - 1];
      var last := returned[n - 1];
      var m := Merge(vs, init);
      assert forall k :: 0 <= k < |init| ==> init[k] == returned[k];
      MergeByPosition(vs, init);
      forall i, k | 0 <= i < |vs| && 0 <= k < n && FirstNamed(vs, returned[k].name) == i
        ensures Merge(vs, returned)[i] == Absorb(vs[i], returned[k])
      {
        MergeStepAt(vs, m, last, i);
        if k == n - 1 {
          forall k' | 0 <= k' < |init| ensures FirstNamed(vs, init[k'].name) != i {
            assert returned[k'].name != last.name;
          }
          assert Untouched(vs, init, i);
        } else {
          assert returned[k].name != last.name;
        }
      }
      forall i | 0 <= i < |vs| && Untouched(vs, returned, i)
        ensures Merge(vs, returned)[i] == vs[i]
      {
        MergeStepAt(vs, m, last, i);
        assert FirstNamed(vs, returned[n - 1].name) != i;
        assert Untouched(vs, init, i) by {
          forall k | 0 <= k < |init| ensures FirstNamed(vs, init[k].name) != i {
            assert FirstNamed(vs, returned[k].name) != i;
          }
        }
      }
    }
  }

  /** Result merge is order-independent: merging any reordering of returned
      vectors with pairwise distinct names gives the same vectors. */
  lemma MergeOrderIndependent(vs: seq<TestVector>, returned: seq<TestVector>, reordered: seq<TestVector>)
    requires DistinctNames(returned) && DistinctNames(reordered)
    requires multiset(returned) == multiset(reordered)
    ensures Merge(vs, returned) == Merge(vs, reordered)
  {
    MergeByPosition(vs, returned);
    MergeByPosition(vs, reordered);
    var a, b := Merge(vs, returned), Merge(vs, reordered);
    forall i | 0 <= i < |vs| ensures a[i] == b[i] {
      if k :| 0 <= k < |returned| && FirstNamed(vs, returned[k].name) == i {
        assert returned[k] in multiset(reordered);
        var k' :| 0 <= k' < |reordered| && reordered[k'] == returned[k];
      } else {
        forall k' | 0 <= k' < |reordered| ensures FirstNamed(vs, reordered[k'].name) != i {
          assert reordered[k'] in multiset(returned);
        }
      }
    }
  }

  /** The number of returned vectors whose error list is empty. */
  function CountSuccesses(returned: seq<TestVector>): (n: nat)
    ensures n <= |returned|
  {
    if returned == [] then 0
    else CountSuccesses(returned[..|returned| - 1]) + (if returned[|returned| - 1].errors == [] then 1 else 0)
  }

  /** Every returned vector succeeded iff the count is the number returned, and
      none did iff the count is zero. */
  lemma {:induction false} CountSuccessesExtremes(returned: seq<TestVector>)
    ensures CountSuccesses(returned) == |returned| <==> forall k :: 0 <= k < |returned| ==> returned[k].errors == []
    ensures CountSuccesses(returned) == 0 <==> forall k :: 0 <= k < |returned| ==> returned[k].errors != []
  {
    if returned != [] {
      var init := returned[..|returned| - 1];
      CountSuccessesExtremes(init);
      assert forall k :: 0 <= k < |init| ==> init[k] == returned[k];
    }
  }

  /** The vector a parallel worker returns: its errors grown by the harness's
      failures, then its errors, one entry per report and in report order;
      nothing else about the vector changes. */
  function WorkerVector(v: TestVector, res: TestResult): (r: TestVector)
    ensures r.name == v.name && r.source == v.source && r.sourceChecksum == v.sourceChecksum
    ensures r.inputFile == v.inputFile && r.result == v.result
    ensures |r.errors| == |v.errors| + |res.failures| + |res.errors|
    ensures r.errors[..|v.errors|] == v.errors
    ensures forall k :: 0 <= k < |res.failures| ==>
              r.errors[|v.errors| + k] == ReportedPair(res.failures[k].traceback)
    ensures forall k :: 0 <= k < |res.errors| ==>
              r.errors[|v.errors| + |res.failures| + k] == ReportedPair(res.errors[k].traceback)
  {
    v.(errors := v.errors + Pairs(res.failures) + Pairs(res.errors))
  }

  /** The harness's (test, traceback) pairs as stored by the worker. */
  function Pairs(rs: seq<Report>): (ds: seq<Diagnostic>)
    ensures |ds| == |rs|
    ensures forall k :: 0 <= k < |rs| ==> ds[k] == ReportedPair(rs[k].traceback)
  {
    if rs == [] then [] else [ReportedPair(rs[0].traceback)] + Pairs(rs[1..])
  }

  /** A vector that went to the worker with no errors comes back counted as a
      success exactly when its harness result was successful. */
  lemma WorkerSuccessMatchesHarness(v: TestVector, res: TestResult)
    requires v.errors == []
    ensures WorkerVector(v, res).errors == [] <==> WasSuccessful(res)
  {
    assert |WorkerVector(v, res).errors| == |res.failures| + |res.errors|;
  }

  /** The vectors the workers return, one per (vector, harness result) pair. */
  function WorkerVectors(vs: seq<TestVector>, rs: seq<TestResult>): seq<TestVector>
    requires |vs| == |rs|
  {
    if vs == [] then []
    else WorkerVectors(vs[..|vs| - 1], rs[..|rs| - 1]) + [WorkerVector(vs[|vs| - 1], rs[|rs| - 1])]
  }

  /** The number of successful harness results, i.e. of '.' progress marks. */
  function CountSuccessful(rs: seq<TestResult>): nat {
    if rs == [] then 0
    else CountSuccessful(rs[..|rs| - 1]) + (if WasSuccessful(rs[|rs| - 1]) then 1 else 0)
  }

  /** When every vector starts without errors, the success count of the merge
      equals the number of '.' marks the workers printed. */
  lemma {:induction false} WorkerCountMatchesMarks(vs: seq<TestVector>, rs: seq<TestResult>)
    requires |vs| == |rs|
    requires forall i :: 0 <= i < |vs| ==> vs[i].errors == []
    ensures CountSuccesses(WorkerVectors(vs, rs)) == CountSuccessful(rs)
  {
    if vs != [] {
      var n := |vs|;
      var w := WorkerVectors(vs, rs);
      WorkerCountMatchesMarks(vs[..n - 1], rs[..n - 1]);
      assert w[..|w| - 1] == WorkerVectors(vs[..n - 1], rs[..n - 1]);
      WorkerSuccessMatchesHarness(vs[n - 1], rs[n - 1]);
    }
  }

  /** A vector that already carries errors when it reaches the worker (from
      its suite file, say) is never counted as a success, even when its run
      succeeds and the worker prints '.'. */
  lemma OldErrorsNeverCountAsSuccess(v: TestVector, res: TestResult)
    requires v.errors != []
    ensures CountSuccesses([WorkerVector(v, res)]) == 0
    ensures WasSuccessful(res) ==> CountSuccessful([res]) == 1
  {
    assert [WorkerVector(v, res)][..0] == [];
    assert [res][..0] == [];
  }

  /** Whether every report names a vector position inside `vs`. */
  predicate ReportsInRange(vs: seq<TestVector>, rs: seq<Report>) {
    forall k :: 0 <= k < |rs| ==> rs[k].test.vectorIndex < |vs|
  }

  /** The sequential path: each report's traceback is appended to the errors
      of the vector its test refers to. */
  function AppendReports(vs: seq<TestVector>, rs: seq<Report>): (r: seq<TestVector>)
    requires ReportsInRange(vs, rs)
    ensures SameNames(vs, r)
  {
    if rs == [] then vs
    else
      var init := AppendReports(vs, rs[..|rs| - 1]);
      var j := rs[|rs| - 1].test.vectorIndex;
      init[j := init[j].(errors := init[j].errors + [Traceback(rs[|rs| - 1].traceback)])]
  }

  /** One more report is one more appended traceback. */
  lemma AppendReportsPrefixStep(vs: seq<TestVector>, rs: seq<Report>, k: nat)
    requires ReportsInRange(vs, rs) && k < |rs|
    ensures ReportsInRange(vs, rs[..k]) && ReportsInRange(vs, rs[..k + 1])
    ensures var init := AppendReports(vs, rs[..k]);
            var j := rs[k].test.vectorIndex;
            AppendReports(vs, rs[..k + 1]) == init[j := init[j].(errors := init[j].errors + [Traceback(rs[k].traceback)])]
  {
    assert rs[..k + 1][..k] == rs[..k];
  }

  /** The tracebacks of the reports about vector position `j`, in report order. */
  function TracebacksFor(rs: seq<Report>, j: nat): seq<Diagnostic> {
    if rs == [] then []
    else TracebacksFor(rs[..|rs| - 1], j) +
         (if rs[|rs| - 1].test.vectorIndex == j then [Traceback(rs[|rs| - 1].traceback)] else [])
  }

  /** The sequential path appends to each vector exactly the tracebacks of the
      reports about it, in report order, and changes nothing else. */
  lemma {:induction false} AppendReportsEffect(vs: seq<TestVector>, rs: seq<Report>)
    requires ReportsInRange(vs, rs)
    ensures |AppendReports(vs, rs)| == |vs|
    ensures forall j :: 0 <= j < |vs| ==>
              AppendReports(vs, rs)[j] == vs[j].(errors := vs[j].errors + TracebacksFor(rs, j))
  {
    if rs != [] {
      var init := rs[..|rs| - 1];
      assert ReportsInRange(vs, init) by {
        forall k | 0 <= k < |init| ensures init[k].test.vectorIndex < |vs| {
          assert init[k] == rs[k];
        }
      }
      AppendReportsEffect(vs, init);
    }
  }
}
