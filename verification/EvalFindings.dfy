/** The findings an evaluation compares, and when a prediction is at an expected place. */
module EvalFindings {

  const MIN_INT64: int := -0x8000_0000_0000_0000
  const MAX_INT64: int := 0x7fff_ffff_ffff_ffff

  /** A line number as the program stores it: a 64-bit integer. */
  type Int64 = x: int | MIN_INT64 <= x <= MAX_INT64

  /** Two's complement wrap-around of an arithmetic result. */
  function Wrap64(x: int): Int64 {
    (x - MIN_INT64) % 0x1_0000_0000_0000_0000 + MIN_INT64
  }

  datatype FindingLocation = FindingLocation(file: string, line: Int64)

  datatype ExpectedFinding = ExpectedFinding(
    category: string, file: string, line: Int64, confidence: string,
    acceptedLocations: seq<FindingLocation>)

  datatype Finding = Finding(category: string, file: string, line: Int64, confidence: string)

  function Abs(value: Int64): Int64 {
    var v: int := value;
    if v < 0 then Wrap64(-v) else value
  }

  predicate PrimaryLocationMatches(expected: ExpectedFinding, actual: Finding) {
    && expected.file == actual.file
    && (expected.line == 0 || Abs(Wrap64(expected.line - actual.line)) <= 3)
  }

  predicate FindingsMatch(expected: ExpectedFinding, actual: Finding) {
    || PrimaryLocationMatches(expected, actual)
    || exists i :: 0 <= i < |expected.acceptedLocations| &&
         var location := expected.acceptedLocations[i];
         location.file != "" && location.line > 0 && location.file == actual.file && location.line == actual.line
  }

  /**
   * The test means at most three lines apart - or a distance that wraps around to that, or one of 2^63, whose absolute
   * value stays negative.
   */
  lemma PrimaryMatchIsThreeLines(expected: ExpectedFinding, actual: Finding)
    ensures var d: int := expected.line - actual.line;
            PrimaryLocationMatches(expected, actual) <==>
              expected.file == actual.file &&
              (expected.line == 0 || -3 <= d <= 3 || d >= 0x1_0000_0000_0000_0000 - 3 ||
               d <= 3 - 0x1_0000_0000_0000_0000 || d == 0x8000_0000_0000_0000 || d == MIN_INT64)
  {
  }

  /** Otherwise the prediction's very place must be on the list; the list cannot name a place without file or line. */
  lemma AcceptedMatchIsMembership(expected: ExpectedFinding, actual: Finding)
    ensures FindingsMatch(expected, actual) <==>
            PrimaryLocationMatches(expected, actual) ||
            (actual.file != "" && actual.line >= 1 && FindingLocation(actual.file, actual.line) in expected.acceptedLocations)
  {
  }

  /** Line numbers as distant as this occur in no file, but they do match. */
  lemma DistantLinesMatch(expected: ExpectedFinding, actual: Finding)
    requires expected.file == actual.file && expected.line == MIN_INT64 && actual.line == 0
    ensures PrimaryLocationMatches(expected, actual)
  {
    assert Wrap64(expected.line - actual.line) == MIN_INT64;
  }
}
