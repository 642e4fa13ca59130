/** Which vectors a run keeps: `generate_tests` with an optional name filter. */
module Selection {
  import opened Values

  /** `if test_vectors:` -- neither a missing filter nor an empty list filters. */
  predicate Filtering(filter: Option<seq<string>>) {
    filter.Some? && filter.value != []
  }

  /** Whether `generate_tests` keeps vector `v`: the lower-cased name must be an
      entry of the filter list; the entries themselves are not lower-cased. */
  predicate Keeps(filter: Option<seq<string>>, v: TestVector): (kept: bool)
    ensures !Filtering(filter) ==> kept
    ensures Filtering(filter) && kept ==> Lower(v.name) in filter.value
  {
    !Filtering(filter) || Lower(v.name) in filter.value
  }

  /** Under a filter, a vector is kept exactly when some entry equals its
      lower-cased name, and such an entry holds no upper-case letter. */
  lemma KeptByLowerCaseEntry(filter: Option<seq<string>>, v: TestVector)
    requires Filtering(filter)
    ensures Keeps(filter, v) <==> exists k :: 0 <= k < |filter.value| && filter.value[k] == Lower(v.name)
    ensures Keeps(filter, v) ==>
              exists e :: e in filter.value && |e| == |v.name| && forall i :: 0 <= i < |e| ==> !IsUpper(e[i])
  {
  }

  /** The kept vectors, in their original order. */
  function Select(vs: seq<TestVector>, filter: Option<seq<string>>): (r: seq<TestVector>)
    ensures |r| <= |vs|
  {
    if vs == [] then []
    else
      var rest := Select(vs[..|vs| - 1], filter);
      if Keeps(filter, vs[|vs| - 1]) then rest + [vs[|vs| - 1]] else rest
  }

  /** The positions of the kept vectors, in increasing order. */
  function KeptPositions(vs: seq<TestVector>, filter: Option<seq<string>>): seq<nat> {
    if vs == [] then []
    else
      var rest := KeptPositions(vs[..|vs| - 1], filter);
      if Keeps(filter, vs[|vs| - 1]) then rest + [|vs| - 1] else rest
  }

  /** Without a filter (none, or an empty list) every vector is kept, in order. */
  lemma {:induction false} SelectWithoutFilter(vs: seq<TestVector>, filter: Option<seq<string>>)
    requires !Filtering(filter)
    ensures Select(vs, filter) == vs
  {
    if vs != [] {
      SelectWithoutFilter(vs[..|vs| - 1], filter);
    }
  }

  /** The k-th selected vector is the vector at the k-th kept position. */
  lemma {:induction false} SelectAtKeptPositions(vs: seq<TestVector>, filter: Option<seq<string>>)
    ensures |KeptPositions(vs, filter)| == |Select(vs, filter)|
    ensures forall k :: 0 <= k < |KeptPositions(vs, filter)| ==>
              KeptPositions(vs, filter)[k] < |vs| &&
              Select(vs, filter)[k] == vs[KeptPositions(vs, filter)[k]]
  {
    if vs != [] {
      var init := vs[..|vs| - 1];
      SelectAtKeptPositions(init, filter);
      assert forall j :: 0 <= j < |init| ==> init[j] == vs[j];
    }
  }

  /** The selection is exactly the kept vectors in their original order: the
      k-th selected vector is the vector at the k-th kept position, the kept
      positions strictly increase, and a position is kept iff its vector
      passes the filter. */
  lemma {:induction false} SelectIsOrderedSubsequence(vs: seq<TestVector>, filter: Option<seq<string>>)
    ensures |KeptPositions(vs, filter)| == |Select(vs, filter)|
    ensures forall k :: 0 <= k < |KeptPositions(vs, filter)| ==>
              KeptPositions(vs, filter)[k] < |vs| &&
              Select(vs, filter)[k] == vs[KeptPositions(vs, filter)[k]]
    ensures forall k, l :: 0 <= k < l < |KeptPositions(vs, filter)| ==>
              KeptPositions(vs, filter)[k] < KeptPositions(vs, filter)[l]
    ensures forall j :: 0 <= j < |vs| ==> (j in KeptPositions(vs, filter) <==> Keeps(filter, vs[j]))
  {
    SelectAtKeptPositions(vs, filter);
    if vs != [] {
      var n := |vs|;
      var init := vs[..n - 1];
      var p, q := KeptPositions(vs, filter), KeptPositions(init, filter);
      SelectIsOrderedSubsequence(init, filter);
      assert forall j :: 0 <= j < |init| ==> init[j] == vs[j];
      assert p == if Keeps(filter, vs[n - 1]) then q + [n - 1] else q;
      assert forall k :: 0 <= k < |q| ==> q[k] < n - 1;
      assert n - 1 !in q;
    }
  }

  /** Membership view: a vector is selected iff it is one of the suite's
      vectors and passes the filter. */
  lemma {:induction false} SelectMembers(vs: seq<TestVector>, filter: Option<seq<string>>, v: TestVector)
    ensures v in Select(vs, filter) <==> v in vs && Keeps(filter, v)
  {
    if vs != [] {
      var init := vs[..|vs| - 1];
      SelectMembers(init, filter, v);
      assert vs == init + [vs[|vs| - 1]];
    }
  }

  /** A filter entry holding an ASCII upper-case letter never matches, so a
      filter made only of such entries selects nothing. */
  lemma UpperCaseEntriesSelectNothing(vs: seq<TestVector>, entries: seq<string>)
    requires entries != []
    requires forall e :: e in entries ==> exists i :: 0 <= i < |e| && IsUpper(e[i])
    ensures Select(vs, Some(entries)) == []
  {
    if Select(vs, Some(entries)) != [] {
      var v := Select(vs, Some(entries))[0];
      SelectMembers(vs, Some(entries), v);
      assert false;
    }
  }
}
