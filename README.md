# gocovparser in Dafny

A model of the parsing-and-aggregation core of gocovparser, a Go library
that reads a Go test-coverage report and reports coverage by ownership
boundary. The model covers three parts:

- **Record building (`Parse`).** Each profile handed over by the external
  profile reader has its file name matched against the pattern
  `host/owner/[repo/]path`. This yields one `Coverage` record per profile,
  with the blocks copied verbatim. The first name the pattern rejects aborts
  the parse.
- **Grouped aggregation (`GroupCoverage`).** For every caller-supplied
  grouping specification (a bucket name and a key function on file names),
  the statements and covered statements of every block are summed per
  group key. Each key then gets the ratio covered/statements, or 0 when it
  has no statements.
- **Overall breakdown (`GetTotalCoverageBreakdown`).** Total and covered
  lines and statements over all blocks, plus the two percentages.

Modules:

| file | module | contents |
|---|---|---|
| `types.dfy` | `CoverageTypes` | blocks, profiles, records, grouping specifications, the breakdown, the error kind, the shared `Ratio` |
| `extraction.dfy` | `Extraction` | what the file-name pattern extracts, as splitting at slashes, with its round-trip lemmas |
| `records.dfy` | `RecordBuilder` | `Parse` over the reader's outcome |
| `totals.dfy` | `OverallBreakdown` | block and record sums and `GetTotalCoverageBreakdown` |
| `grouping.dfy` | `GroupedAggregation` | per-key and per-name sums, the loops of `GroupCoverage` and their proofs |

The model reads the pattern with Go's regular-expression semantics:

- The match is searched anywhere in the name, leftmost first.
- `[^/]` also matches a newline; `.` does not.
- So `host` is the text before the first slash and `owner` the text
  between the first and second slash.
- `repo` is the text between the second and third slash when there is a
  third slash, and empty otherwise.
- `path` is the rest, up to its first newline.

All three procedures are imperative in the source, and so are
`RecordBuilder.Parse`, `OverallBreakdown.GetTotalCoverageBreakdown` and
`GroupedAggregation.GroupCoverage`. Each is a method whose loops are proved
against recursive specification functions (`ItemsSum`, `BlockSum`,
`KeySum`, `KeysOf`, `NameSum`, `NameKeys`). The properties the source
promises are then proved about those functions.

Where the prose description of the library and the code disagree, the
model follows the code:

- The description gives the round trip as
  `host + "/" + owner + "/" + (repo + "/" if repo non-empty) + path`.
  For a name with three or more slashes and an empty third segment, such
  as `a/b//c`, the code yields `repo == ""` and `path == "c"`, and that
  formula rebuilds `a/b/c`. `Extraction.IdentityRoundTrip` states what the
  code does: with three or more slashes the name is always
  `host/owner/repo/path`, even when `repo` is empty. With exactly two
  slashes, `repo` is empty and the name is `host/owner/path`.
- The description speaks of one record per distinct file identifier. The
  code builds one record per profile and does not deduplicate, and so does
  the model.

## Model

| member | source | states |
|---|---|---|
| CoverageTypes.Ratio | gocovparser/core.go:101-107 | a zero total gives 0; otherwise the ratio times the total is the covered count; a covered count between 0 and the total gives a ratio in [0, 1] |
| Extraction.ExtractIdentity | gocovparser/core.go:18-23 | host, owner and repo of a match contain no slash, and the path contains no newline |
| Extraction.FirstLine | gocovparser/core.go:22 | the `.*` group is the longest newline-free prefix of the rest of the name |
| Extraction.MatchIffTwoSlashes | gocovparser/core.go:42-44 | a file name is accepted if and only if it contains at least two slashes |
| Extraction.RepoIffThreeSlashes | gocovparser/core.go:21 | the optional repo group is taken if and only if there is a third slash; with exactly two slashes, repo is empty |
| Extraction.IdentityRoundTrip | gocovparser/core.go:47-50 | for a newline-free name with at least two slashes the extracted parts rebuild it: host/owner/repo/path with three or more slashes, host/owner/path and an empty repo with exactly two |
| Extraction.ExtractJoined | gocovparser/core.go:18-23 | slash-free host, owner and repo and a newline-free path joined by slashes are extracted back exactly |
| Extraction.ExtractJoinedWithoutRepo | gocovparser/core.go:18-23 | slash-free host and owner and a slash- and newline-free path joined by two slashes are extracted back, with an empty repo |
| Extraction.ExampleRejected | gocovparser/core.go:42-44 | `file.go` and `github.com/file.go` are rejected |
| RecordBuilder.Parse | gocovparser/core.go:26-63 | a reader failure becomes InvalidCoverageData carrying its message; success if and only if every file name is accepted; on failure the error names the first rejected file; on success there is one record per profile, in order, with that profile's name, its blocks and the identity extracted from its name |
| OverallBreakdown.CoveredSumIsSumOfCoveredBlocks | gocovparser/core.go:131-140 | a covered total is the plain total over the executed blocks alone |
| OverallBreakdown.BlockSumAppend | gocovparser/core.go:126-141 | block totals are additive over concatenation |
| OverallBreakdown.ItemsSumAppend | gocovparser/core.go:125-142 | the totals of items1 + items2 are the sums of the totals of each part |
| OverallBreakdown.BlockSumBounds | gocovparser/core.go:126-141 | for well-formed blocks, 0 <= covered total <= total |
| OverallBreakdown.ItemsSumBounds | gocovparser/core.go:125-142 | for well-formed records, 0 <= covered total <= total |
| OverallBreakdown.GetTotalCoverageBreakdown | gocovparser/core.go:115-154 | the four counts are the line and statement totals and covered totals over all blocks of all records; each percentage is covered/total, or 0 for a zero total; for well-formed blocks, covered <= total and both percentages lie in [0, 1] |
| GroupedAggregation.KeysOfMembership | gocovparser/core.go:85-95 | a key enters a bucket if and only if some record with at least one block maps to it |
| GroupedAggregation.NamesMembership | gocovparser/core.go:72-83 | there is a bucket for a name if and only if some specification has that name |
| GroupedAggregation.AbsentName | gocovparser/core.go:72-83 | a name no specification uses has no keys and zero sums |
| GroupedAggregation.UniqueName | gocovparser/core.go:72-109 | a name used by exactly one specification gets exactly that specification's keys and per-key sums |
| GroupedAggregation.KeySumBounds | gocovparser/core.go:85-95 | for well-formed blocks, 0 <= covered statements of a key <= its statements |
| GroupedAggregation.NameSumBounds | gocovparser/core.go:85-95 | the same bound for a bucket shared by several specifications |
| GroupedAggregation.SingleKeyIsOverall | gocovparser/core.go:85-95 | when every file maps to one key, that key's sums are the overall statement totals of the breakdown |
| GroupedAggregation.KeySumAppend | gocovparser/core.go:85-95 | per-key sums are additive over concatenation of the records |
| GroupedAggregation.AccumulateBlocks | gocovparser/core.go:88-94 | every block adds its statements to the key, and when executed adds them to the covered count; no other key changes; a key enters the statement map only if there is a block |
| GroupedAggregation.AccumulateBucket | gocovparser/core.go:85-95 | after the loop over records, the statement map has the keys it had plus those of records with blocks, and each key's statements and covered statements grow by that key's sums |
| GroupedAggregation.SetRatios | gocovparser/core.go:97-108 | in any iteration order, every key of the statement map gets covered/statements, or 0 for zero statements, and other keys keep their ratio |
| GroupedAggregation.GroupStep | gocovparser/core.go:72-108 | one pass of the outer loop keeps the invariant: one bucket per name seen so far, holding the sums of the specifications with that name and the ratio of each of its keys |
| GroupedAggregation.RatiosOfBuckets | gocovparser/core.go:97-108 | buckets that hold their sums and ratios give each key the ratio of its name's sums, in [0, 1] for well-formed blocks |
| GroupedAggregation.GroupCoverage | gocovparser/core.go:66-112 | one bucket per specification name; a bucket's keys are those produced by the name's specifications from records with blocks; each key's value is the ratio of its covered statements to its statements, summed over the name's specifications, 0 when it has no statements, and in [0, 1] for well-formed blocks |

## Left out

- The textual coverage format and the external profile reader are not modelled. `Parse` takes the reader's outcome, a list of profiles or an error message, as its input.
- The trimming of surrounding whitespace is not modelled, because it only feeds the external reader.
- Error wrapping and message text are not modelled. An error is `InvalidCoverageData` with its cause: the reader's message, or the rejected file name.
- The error results of `GroupCoverage` and `GetTotalCoverageBreakdown` are always nil in the source and are left out.
- float64 rounding is not modelled. Ratios and percentages are exact reals, and integer sums are unbounded.
- The key functions are arbitrary caller functions, modelled as total functions on strings. Their own behaviour is outside the library.
- The column fields of blocks are not used by any computation and are omitted.
- File names are sequences of characters rather than UTF-8 bytes. No Unicode property of the pattern matters for `/` and newline.
- Extraction.ExtractIdentity: the regular-expression engine itself is not modelled. The model states its result for this one pattern as splitting at slashes.
- GroupedAggregation.GroupCoverage: the nested maps are values. Each inner loop is a helper method that returns the updated bucket, which the outer loop stores back under the name. Aliasing between the inner maps is therefore not modelled; the source never shares them.
- GroupedAggregation.SetRatios: Go's random map iteration order is modelled as an arbitrary choice of the next key. No particular order is modelled.
