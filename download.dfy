/** The per-vector download decision: where the vector's file goes, whether
    the copy already on disk is usable, whether to fetch, what to extract and
    whether to remove the archive afterwards. */
module Download {
  import opened Values

  /** The context handed to one download worker. */
  datatype DownloadWork = DownloadWork(
    outDir: string,
    verify: bool,
    extractAll: bool,
    keepFile: bool,
    testSuiteName: string,
    testVector: TestVector)

  /** What the worker can observe of the disk, as uninterpreted functions:
      whether a path exists, the checksum of a file and whether a file is an
      archive the extraction utility recognises. */
  datatype FileSystem = FileSystem(
    present: string -> bool,
    checksum: string -> string,
    extractable: string -> bool)

  /** Extract the one member named, or every member. */
  datatype Extraction = ExtractMember(member: string) | ExtractAll

  /** What one worker does. */
  datatype DownloadPlan = DownloadPlan(
    destDir: string,
    destPath: string,
    makeDir: bool,
    fileDownloaded: bool,
    fetch: bool,
    extract: Option<Extraction>,
    removeArchive: bool)

  /** POSIX `os.path.join` of two components: an absolute second component
      replaces the first; a separator is inserted unless the first is empty
      or already ends in one. A relative second component thus ends the
      result, the first begins it, and one separator lies between them
      exactly when the first is non-empty and does not end in one. */
  function Join(a: string, b: string): (p: string)
    ensures |b| > 0 && b[0] == '/' ==> p == b
    ensures !(|b| > 0 && b[0] == '/') ==>
              |a| + |b| <= |p| <= |a| + |b| + 1 && a <= p && p[|p| - |b|..] == b
    ensures !(|b| > 0 && b[0] == '/') && |p| == |a| + |b| + 1 ==> p[|a|] == '/'
    ensures !(|b| > 0 && b[0] == '/') ==> (|p| == |a| + |b| + 1 <==> a != [] && a[|a| - 1] != '/')
  {
    if |b| > 0 && b[0] == '/' then b
    else if a == [] || a[|a| - 1] == '/' then a + b
    else a + "/" + b
  }

  /** POSIX `os.path.basename`: everything after the last separator. */
  function Basename(p: string): (b: string)
    ensures '/' !in b
    ensures |b| <= |p| && b == p[|p| - |b|..]
  {
    if p == [] then []
    else if p[|p| - 1] == '/' then []
    else Basename(p[..|p| - 1]) + [p[|p| - 1]]
  }

  /** Appending a non-separator character extends the basename by it. */
  lemma BasenameSnoc(p: string, c: char)
    requires c != '/'
    ensures Basename(p + [c]) == Basename(p) + [c]
  {
    assert (p + [c])[..|p|] == p;
  }

  /** The basename of a path ending in `b` after a separator (or of `b`
      alone) is `b` itself, when `b` holds no separator. */
  lemma {:induction false} BasenameOfSuffix(x: string, b: string)
    requires '/' !in b
    requires x == [] || x[|x| - 1] == '/'
    ensures Basename(x + b) == b
  {
    if b == [] {
      assert x + b == x;
    } else {
      var init, last := b[..|b| - 1], b[|b| - 1];
      assert b == init + [last];
      assert last != '/' by { assert last in b; }
      BasenameOfSuffix(x, init);
      assert x + b == (x + init) + [last];
      BasenameSnoc(x + init, last);
    }
  }

  /** Joining a separator-free name onto a directory names that file. */
  lemma BasenameOfJoin(d: string, b: string)
    requires '/' !in b
    ensures Basename(Join(d, b)) == b
  {
    if d == [] || d[|d| - 1] == '/' {
      BasenameOfSuffix(d, b);
    } else {
      BasenameOfSuffix(d + "/", b);
      assert d + "/" + b == (d + "/") + b;
    }
  }

  /** `join(out_dir, suite_name, vector.name)`: with a relative vector name
      the directory's path ends with that name, and with relative suite and
      vector names it begins with the output directory's path. Components
      such as `..` are not resolved, so the latter is about the path string
      only. With a separator-free, non-empty suite name, a separator-free
      vector name and an output directory not ending in a separator, the
      path is `out_dir/suite_name/vector_name`. */
  function DestDir(w: DownloadWork): (d: string)
    ensures (|w.testVector.name| == 0 || w.testVector.name[0] != '/') ==>
              |w.testVector.name| <= |d| && d[|d| - |w.testVector.name|..] == w.testVector.name
    ensures (|w.testSuiteName| == 0 || w.testSuiteName[0] != '/') &&
            (|w.testVector.name| == 0 || w.testVector.name[0] != '/') ==>
              w.outDir <= d
    ensures w.outDir != [] && w.outDir[|w.outDir| - 1] != '/' && w.testSuiteName != [] &&
            '/' !in w.testSuiteName && '/' !in w.testVector.name ==>
              d == w.outDir + "/" + w.testSuiteName + "/" + w.testVector.name
  {
    Join(Join(w.outDir, w.testSuiteName), w.testVector.name)
  }

  /** `join(dest_dir, basename(source))`: the file's path begins with its
      directory's path and keeps the source's basename; when the directory
      does not end in a separator, the path is `dest_dir/basename`. */
  function DestPath(w: DownloadWork): (p: string)
    ensures DestDir(w) <= p
    ensures Basename(p) == Basename(w.testVector.source)
    ensures DestDir(w) != [] && DestDir(w)[|DestDir(w)| - 1] != '/' ==>
              p == DestDir(w) + "/" + Basename(w.testVector.source)
  {
    var b := Basename(w.testVector.source);
    assert |b| > 0 ==> b[0] in b;
    BasenameOfJoin(DestDir(w), b);
    Join(DestDir(w), b)
  }

  /** The copy on disk is usable: it exists and, when verifying, its checksum
      is the vector's recorded one. */
  function FileDownloaded(w: DownloadWork, fs: FileSystem): (ok: bool)
    ensures ok ==> fs.present(DestPath(w))
    ensures ok <==> fs.present(DestPath(w)) && (!w.verify || fs.checksum(DestPath(w)) == w.testVector.sourceChecksum)
  {
    var downloaded := fs.present(DestPath(w));
    if downloaded && w.verify then
      if w.testVector.sourceChecksum != fs.checksum(DestPath(w)) then false else downloaded
    else downloaded
  }

  /** Extraction and clean-up, decided after the fetch: a recognised archive
      is extracted (only the vector's input file unless everything is asked
      for) and then removed unless it is to be kept. */
  function Plan(w: DownloadWork, fs: FileSystem, fetch: bool): (p: DownloadPlan)
    ensures p.destDir == DestDir(w) && p.destPath == DestPath(w)
    ensures p.makeDir <==> !fs.present(DestDir(w))
    ensures p.fileDownloaded == FileDownloaded(w, fs) && p.fetch == fetch
    ensures p.extract.Some? <==> fs.extractable(DestPath(w))
    ensures p.extract.Some? ==> p.extract.value == (if w.extractAll then ExtractAll else ExtractMember(w.testVector.inputFile))
    ensures p.removeArchive <==> p.extract.Some? && !w.keepFile
  {
    var path := DestPath(w);
    var extractable := fs.extractable(path);
    DownloadPlan(
      DestDir(w), path, !fs.present(DestDir(w)), FileDownloaded(w, fs), fetch,
      if extractable then Some(if w.extractAll then ExtractAll else ExtractMember(w.testVector.inputFile)) else None,
      extractable && !w.keepFile)
  }

  /** `_download_worker` as written: the file is fetched whatever
      `file_downloaded` says. */
  function PlanAsWritten(w: DownloadWork, fs: FileSystem): (p: DownloadPlan)
    ensures p.fetch
  {
    Plan(w, fs, true)
  }

  /** A vector whose file is present with the recorded checksum is fetched
      again by the code as written, although verification succeeded. */
  lemma AsWrittenRefetchesVerifiedFile()
    ensures var v := TestVector("A", "http://host/a.zip", "c0ffee", "a.bin", None, []);
            var w := DownloadWork("resources", true, false, false, "suite", v);
            var fs := FileSystem(p => true, p => "c0ffee", p => false);
            PlanAsWritten(w, fs).fileDownloaded && PlanAsWritten(w, fs).fetch
  {
  }

  /** `_download_worker` as evidently intended: fetch only when the copy on
      disk is missing or fails verification. */
  function PlanFor(w: DownloadWork, fs: FileSystem): (p: DownloadPlan)
    ensures p.fetch <==> !p.fileDownloaded
    ensures p.fileDownloaded <==> fs.present(DestPath(w)) && (!w.verify || fs.checksum(DestPath(w)) == w.testVector.sourceChecksum)
  {
    Plan(w, fs, !FileDownloaded(w, fs))
  }

  /** Downloading again with verification on performs no transfer for a
      vector whose file is present with the recorded checksum, and a missing
      file is always fetched. */
  lemma RedownloadIsIdempotent(w: DownloadWork, fs: FileSystem)
    ensures fs.present(DestPath(w)) && fs.checksum(DestPath(w)) == w.testVector.sourceChecksum ==> !PlanFor(w, fs).fetch
    ensures !fs.present(DestPath(w)) ==> PlanFor(w, fs).fetch
  {
  }
}
