/** The records the test-suite engine works on: test vectors, the decoder
    descriptor, the generated tests and what the unit-test harness reports. */
module Values {

  datatype Option<T> = None | Some(value: T)

  /** One entry of a vector's error list. The sequential path stores the
      traceback text the harness reports; the parallel worker stores the
      harness's (test, traceback) pair, of which the model keeps the text. */
  datatype Diagnostic = Traceback(text: string) | ReportedPair(text: string)

  /** A test vector; `result` and `errors` are written by the run phase. */
  datatype TestVector = TestVector(
    name: string,
    source: string,
    sourceChecksum: string,
    inputFile: string,
    result: Option<string>,
    errors: seq<Diagnostic>)

  /** The codec enumeration member, identified by its value. */
  datatype Codec = Codec(value: string)

  /** What the engine consults of a decoder: its name, whether it uses
      hardware acceleration and what its readiness probe `check_run` answers. */
  datatype Decoder = Decoder(name: string, hwAcceleration: bool, canRun: bool)

  /** One generated test. The test refers to its vector; `vectorIndex` is the
      position of that vector in the suite's (already filtered) vector list,
      which is how the sequential path finds the vector to append to. */
  datatype Test = Test(
    decoder: Decoder,
    suiteName: string,
    vector: TestVector,
    vectorIndex: nat,
    resultsDir: string,
    reference: bool,
    timeout: int,
    keepFiles: bool)

  /** One failure or error reported by the harness: the test and its traceback. */
  datatype Report = Report(test: Test, traceback: string)

  /** The harness result: its failures and errors lists. */
  datatype TestResult = TestResult(failures: seq<Report>, errors: seq<Report>)

  /** `TestResult.wasSuccessful()`: no failure and no error. */
  predicate WasSuccessful(r: TestResult): (ok: bool)
    ensures ok <==> |r.failures| + |r.errors| == 0
  {
    r.failures == [] && r.errors == []
  }

  /** `str.lower()` on one character, restricted to ASCII letters. */
  function LowerChar(c: char): char {
    if 'A' <= c <= 'Z' then (c as int + 32) as char else c
  }

  predicate IsUpper(c: char) {
    'A' <= c <= 'Z'
  }

  /** `str.lower()` restricted to ASCII letters. Each upper-case letter
      becomes its lower-case letter and every other character stays, so the
      result holds no ASCII upper-case letter and a filter entry that holds
      one never equals a lower-cased name. */
  function Lower(s: string): (r: string)
    ensures |r| == |s|
    ensures forall i :: 0 <= i < |r| ==> !IsUpper(r[i])
    ensures forall i :: 0 <= i < |r| && !IsUpper(s[i]) ==> r[i] == s[i]
    ensures forall i :: 0 <= i < |s| && IsUpper(s[i]) ==> r[i] == (s[i] as int + 32) as char && 'a' <= r[i] <= 'z'
  {
    seq(|s|, i requires 0 <= i < |s| => LowerChar(s[i]))
  }
}
