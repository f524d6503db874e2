/** Block sums and the overall coverage breakdown: total and covered line
    counts, total and covered statement counts, and the two percentages. */
module OverallBreakdown {
  import opened CoverageTypes

  /** What a block contributes: its inclusive line count, or its statements. */
  datatype Measure = Lines | Statements

  function Weight(b: Block, m: Measure): int
  {
    match m
    case Lines => b.endLine - b.startLine + 1
    case Statements => b.numStmt
  }

  /** What a block adds to a total (coveredOnly false) or to a covered total
      (coveredOnly true). */
  function Contribution(b: Block, m: Measure, coveredOnly: bool): int
  {
    if !coveredOnly || b.IsCovered() then Weight(b, m) else 0
  }

  /** The sum of the contributions of the blocks, in order. */
  function BlockSum(blocks: seq<Block>, m: Measure, coveredOnly: bool): int
  {
    if |blocks| == 0 then 0
    else BlockSum(blocks[..|blocks| - 1], m, coveredOnly) + Contribution(blocks[|blocks| - 1], m, coveredOnly)
  }

  /** The sum of BlockSum over the records, in order. */
  function ItemsSum(items: seq<Coverage>, m: Measure, coveredOnly: bool): int
  {
    if |items| == 0 then 0
    else ItemsSum(items[..|items| - 1], m, coveredOnly) + BlockSum(items[|items| - 1].blocks, m, coveredOnly)
  }

  /** The blocks that were executed, in order. */
  function CoveredBlocks(blocks: seq<Block>): (r: seq<Block>)
    ensures forall b :: b in r <==> b in blocks && b.IsCovered()
  {
    if |blocks| == 0 then []
    else CoveredBlocks(blocks[..|blocks| - 1]) + (if blocks[|blocks| - 1].IsCovered() then [blocks[|blocks| - 1]] else [])
  }

  /** A covered total is the plain total over the executed blocks only. */
  lemma {:induction false} CoveredSumIsSumOfCoveredBlocks(blocks: seq<Block>, m: Measure)
    ensures BlockSum(blocks, m, true) == BlockSum(CoveredBlocks(blocks), m, false)
  {
    if |blocks| > 0 {
      var init, last := blocks[..|blocks| - 1], blocks[|blocks| - 1];
      CoveredSumIsSumOfCoveredBlocks(init, m);
      BlockSumAppend(CoveredBlocks(init), if last.IsCovered() then [last] else [], m, false);
      if last.IsCovered() {
        assert [last][..0] == [];
      }
    }
  }

  /** Block sums are additive over concatenation. */
  lemma {:induction false} BlockSumAppend(a: seq<Block>, b: seq<Block>, m: Measure, coveredOnly: bool)
    ensures BlockSum(a + b, m, coveredOnly) == BlockSum(a, m, coveredOnly) + BlockSum(b, m, coveredOnly)
  {
    if |b| == 0 {
      assert a + b == a;
    } else {
      assert (a + b)[..|a + b| - 1] == a + b[..|b| - 1];
      BlockSumAppend(a, b[..|b| - 1], m, coveredOnly);
    }
  }

  /** Record sums are additive over concatenation: the counts of items1 +
      items2 are the sums of the counts of each part. */
  lemma {:induction false} ItemsSumAppend(a: seq<Coverage>, b: seq<Coverage>, m: Measure, coveredOnly: bool)
    ensures ItemsSum(a + b, m, coveredOnly) == ItemsSum(a, m, coveredOnly) + ItemsSum(b, m, coveredOnly)
  {
    if |b| == 0 {
      assert a + b == a;
    } else {
      assert (a + b)[..|a + b| - 1] == a + b[..|b| - 1];
      ItemsSumAppend(a, b[..|b| - 1], m, coveredOnly);
    }
  }

  /** For well-formed blocks the covered total lies between 0 and the total. */
  lemma {:induction false} BlockSumBounds(blocks: seq<Block>, m: Measure)
    requires forall j :: 0 <= j < |blocks| ==> blocks[j].WellFormed()
    ensures 0 <= BlockSum(blocks, m, true) <= BlockSum(blocks, m, false)
  {
    if |blocks| > 0 {
      BlockSumBounds(blocks[..|blocks| - 1], m);
    }
  }

  /** For well-formed records the covered total lies between 0 and the total. */
  lemma {:induction false} ItemsSumBounds(items: seq<Coverage>, m: Measure)
    requires AllWellFormed(items)
    ensures 0 <= ItemsSum(items, m, true) <= ItemsSum(items, m, false)
  {
    if |items| > 0 {
      var init := items[..|items| - 1];
      assert AllWellFormed(init) by {
        forall i, j | 0 <= i < |init| && 0 <= j < |init[i].blocks| ensures init[i].blocks[j].WellFormed() {
          assert init[i] == items[i];
        }
      }
      ItemsSumBounds(init, m);
      BlockSumBounds(items[|items| - 1].blocks, m);
    }
  }

  /** One pass over all blocks of all records, adding each block's lines and
      statements to the totals and, when it was executed, to the covered
      totals; the percentages are covered/total, or 0 for a zero total. */
  method GetTotalCoverageBreakdown(items: seq<Coverage>) returns (result: OverallCoverageBreakdown)
    ensures result.totalLines == ItemsSum(items, Lines, false)
    ensures result.totalCoveredLines == ItemsSum(items, Lines, true)
    ensures result.totalStatements == ItemsSum(items, Statements, false)
    ensures result.totalCoveredStatements == ItemsSum(items, Statements, true)
    ensures result.percentByLines == Ratio(result.totalCoveredLines, result.totalLines)
    ensures result.percentByStatements == Ratio(result.totalCoveredStatements, result.totalStatements)
    ensures AllWellFormed(items) ==>
      && 0 <= result.totalCoveredLines <= result.totalLines
      && 0 <= result.totalCoveredStatements <= result.totalStatements
      && 0.0 <= result.percentByLines <= 1.0
      && 0.0 <= result.percentByStatements <= 1.0
  {
    result := OverallCoverageBreakdown(
      totalCoveredLines := 0,
      totalLines := 0,
      percentByLines := 0.0,
      totalCoveredStatements := 0,
      totalStatements := 0,
      percentByStatements := 0.0);

    for i := 0 to |items|
      invariant result.totalLines == ItemsSum(items[..i], Lines, false)
      invariant result.totalCoveredLines == ItemsSum(items[..i], Lines, true)
      invariant result.totalStatements == ItemsSum(items[..i], Statements, false)
      invariant result.totalCoveredStatements == ItemsSum(items[..i], Statements, true)
      invariant result.percentByLines == 0.0 && result.percentByStatements == 0.0
    {
      var blocks := items[i].blocks;
      for j := 0 to |blocks|
        invariant result.totalLines == ItemsSum(items[..i], Lines, false) + BlockSum(blocks[..j], Lines, false)
        invariant result.totalCoveredLines == ItemsSum(items[..i], Lines, true) + BlockSum(blocks[..j], Lines, true)
        invariant result.totalStatements == ItemsSum(items[..i], Statements, false) + BlockSum(blocks[..j], Statements, false)
        invariant result.totalCoveredStatements == ItemsSum(items[..i], Statements, true) + BlockSum(blocks[..j], Statements, true)
        invariant result.percentByLines == 0.0 && result.percentByStatements == 0.0
      {
        var b := blocks[j];
        assert blocks[..j + 1][..j] == blocks[..j];
        var linesInBlock := b.endLine - b.startLine + 1;
        result := result.(totalLines := result.totalLines + linesInBlock);
        if b.count > 0 {
          result := result.(totalCoveredLines := result.totalCoveredLines + linesInBlock);
        }
        result := result.(totalStatements := result.totalStatements + b.numStmt);
        if b.count > 0 {
          result := result.(totalCoveredStatements := result.totalCoveredStatements + b.numStmt);
        }
      }
      assert blocks[..|blocks|] == blocks;
      assert items[..i + 1][..i] == items[..i];
    }
    assert items[..|items|] == items;

    if result.totalLines != 0 {
      result := result.(percentByLines := result.totalCoveredLines as real / result.totalLines as real);
    }
    if result.totalStatements != 0 {
      result := result.(percentByStatements := result.totalCoveredStatements as real / result.totalStatements as real);
    }
    if AllWellFormed(items) {
      ItemsSumBounds(items, Lines);
      ItemsSumBounds(items, Statements);
    }
  }
}
