/** The records the coverage parser works on: the blocks handed over by the
    external coverage-profile reader, the normalized per-file records that
    Parse builds, the grouping specifications supplied by callers, the
    overall breakdown, and the single error kind of the library. */
module CoverageTypes {

  /** One block of a coverage profile: an inclusive line range, the number of
      statements it holds and how often it was executed. The column fields of
      the reader's block play no part in the computations and are omitted. */
  datatype Block = Block(startLine: int, endLine: int, numStmt: int, count: int)
  {
    /** A block counts as covered when it was executed at least once. */
    predicate IsCovered() { count > 0 }

    /** The reader's guarantees: the range is not reversed and the statement
        count is not negative. */
    predicate WellFormed() { startLine <= endLine && numStmt >= 0 }
  }

  /** What the external reader yields for one file: its name and its blocks. */
  datatype Profile = Profile(fileName: string, blocks: seq<Block>)

  /** A normalized record: the file name, the identity extracted from it and
      the blocks, copied verbatim. */
  datatype Coverage = Coverage(
    fileName: string,
    host: string,
    owner: string,
    repo: string,
    path: string,
    blocks: seq<Block>)

  /** A caller's grouping specification: the name of its result bucket and the
      function that derives a group key from a file name. */
  datatype ParseGroup = ParseGroup(name: string, keyFunc: string -> string)

  /** Statement ratios per group key, per grouping name. */
  type ParseGroupResult = map<string, map<string, real>>

  /** The overall totals by lines and by statements. */
  datatype OverallCoverageBreakdown = OverallCoverageBreakdown(
    totalCoveredLines: int,
    totalLines: int,
    percentByLines: real,
    totalCoveredStatements: int,
    totalStatements: int,
    percentByStatements: real)

  /** Why the coverage data was rejected. */
  datatype Cause =
    | ReportRejected(message: string)   // the external reader failed
    | InvalidFileName(fileName: string) // a file name has fewer than two slashes

  /** The one error kind of the library. */
  datatype CoverageError = InvalidCoverageData(cause: Cause)

  datatype Result<T, E> = Success(value: T) | Failure(error: E)

  /** True iff every block of every record is well formed. */
  predicate AllWellFormed(items: seq<Coverage>)
  {
    forall i, j :: 0 <= i < |items| && 0 <= j < |items[i].blocks| ==> items[i].blocks[j].WellFormed()
  }

  /** A covered/total ratio with the division-by-zero policy of the library:
      a zero total gives 0. Counts with 0 <= covered <= total give a ratio
      in [0, 1]. */
  function Ratio(covered: int, total: int): (r: real)
    ensures total == 0 ==> r == 0.0
    ensures total != 0 ==> r * (total as real) == covered as real
    ensures 0 <= covered <= total ==> 0.0 <= r <= 1.0
  {
    if total == 0 then 0.0 else covered as real / total as real
  }
}
