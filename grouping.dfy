/** Grouped coverage: for every grouping specification, the statement
    coverage ratio of every group key its key function produces. */
module GroupedAggregation {
  import opened CoverageTypes
  import opened OverallBreakdown

  /** A nested-map entry with Go's zero default for a missing key. */
  function Get(m: map<string, int>, k: string): int
  {
    if k in m then m[k] else 0
  }

  /** Statements (coveredOnly false) or covered statements (coveredOnly true)
      of the records whose file name keyOf maps to key. */
  function KeySum(items: seq<Coverage>, keyOf: string -> string, key: string, coveredOnly: bool): int
  {
    if |items| == 0 then 0
    else
      var last := items[|items| - 1];
      KeySum(items[..|items| - 1], keyOf, key, coveredOnly)
        + (if keyOf(last.fileName) == key then BlockSum(last.blocks, Statements, coveredOnly) else 0)
  }

  /** The keys produced by the records that have at least one block. */
  function KeysOf(items: seq<Coverage>, keyOf: string -> string): set<string>
  {
    if |items| == 0 then {}
    else
      var last := items[|items| - 1];
      KeysOf(items[..|items| - 1], keyOf) + (if |last.blocks| > 0 then {keyOf(last.fileName)} else {})
  }

  /** The names of the grouping specifications. */
  function GroupNames(groups: seq<ParseGroup>): set<string>
  {
    if |groups| == 0 then {} else GroupNames(groups[..|groups| - 1]) + {groups[|groups| - 1].name}
  }

  /** KeySum accumulated over every specification called name: specifications
      that share a name share one bucket. */
  function NameSum(items: seq<Coverage>, groups: seq<ParseGroup>, name: string, key: string, coveredOnly: bool): int
  {
    if |groups| == 0 then 0
    else
      var last := groups[|groups| - 1];
      NameSum(items, groups[..|groups| - 1], name, key, coveredOnly)
        + (if last.name == name then KeySum(items, last.keyFunc, key, coveredOnly) else 0)
  }

  /** KeysOf over every specification called name. */
  function NameKeys(items: seq<Coverage>, groups: seq<ParseGroup>, name: string): set<string>
  {
    if |groups| == 0 then {}
    else
      var last := groups[|groups| - 1];
      NameKeys(items, groups[..|groups| - 1], name) + (if last.name == name then KeysOf(items, last.keyFunc) else {})
  }

  /** A key is produced iff some record with at least one block maps to it. */
  lemma {:induction false} KeysOfMembership(items: seq<Coverage>, keyOf: string -> string, key: string)
    ensures key in KeysOf(items, keyOf) <==>
      exists i :: 0 <= i < |items| && |items[i].blocks| > 0 && keyOf(items[i].fileName) == key
  {
    if |items| > 0 {
      var init := items[..|items| - 1];
      KeysOfMembership(init, keyOf, key);
      if exists i :: 0 <= i < |items| && |items[i].blocks| > 0 && keyOf(items[i].fileName) == key {
        var i :| 0 <= i < |items| && |items[i].blocks| > 0 && keyOf(items[i].fileName) == key;
        if i < |items| - 1 {
          assert init[i] == items[i];
        }
      }
      if exists i :: 0 <= i < |init| && |init[i].blocks| > 0 && keyOf(init[i].fileName) == key {
        var i :| 0 <= i < |init| && |init[i].blocks| > 0 && keyOf(init[i].fileName) == key;
        assert items[i] == init[i];
      }
    }
  }

  /** Specification names that do not occur contribute nothing. */
  lemma {:induction false} AbsentName(items: seq<Coverage>, groups: seq<ParseGroup>, name: string)
    requires name !in GroupNames(groups)
    ensures NameKeys(items, groups, name) == {}
    ensures forall key, c :: NameSum(items, groups, name, key, c) == 0
  {
    if |groups| > 0 {
      AbsentName(items, groups[..|groups| - 1], name);
    }
  }

  /** A name used by exactly one specification gets exactly that
      specification's keys and sums. */
  lemma {:induction false} UniqueName(items: seq<Coverage>, groups: seq<ParseGroup>, j: nat)
    requires j < |groups|
    requires forall i :: 0 <= i < |groups| && i != j ==> groups[i].name != groups[j].name
    ensures NameKeys(items, groups, groups[j].name) == KeysOf(items, groups[j].keyFunc)
    ensures forall key, c :: NameSum(items, groups, groups[j].name, key, c) == KeySum(items, groups[j].keyFunc, key, c)
  {
    var init := groups[..|groups| - 1];
    var name := groups[j].name;
    if j == |groups| - 1 {
      assert name !in GroupNames(init) by {
        NamesMembership(init, name);
      }
      AbsentName(items, init, name);
    } else {
      forall i | 0 <= i < |init| && i != j ensures init[i].name != init[j].name {
        assert init[i] == groups[i];
      }
      UniqueName(items, init, j);
    }
  }

  /** The result has one bucket per specification name. */
  lemma {:induction false} NamesMembership(groups: seq<ParseGroup>, name: string)
    ensures name in GroupNames(groups) <==> exists i :: 0 <= i < |groups| && groups[i].name == name
  {
    if |groups| > 0 {
      var init := groups[..|groups| - 1];
      NamesMembership(init, name);
      if exists i :: 0 <= i < |init| && init[i].name == name {
        var i :| 0 <= i < |init| && init[i].name == name;
        assert groups[i] == init[i];
      }
    }
  }

  /** With non-negative statement counts the covered statements of a key lie
      between 0 and its statements. */
  lemma {:induction false} KeySumBounds(items: seq<Coverage>, keyOf: string -> string, key: string)
    requires AllWellFormed(items)
    ensures 0 <= KeySum(items, keyOf, key, true) <= KeySum(items, keyOf, key, false)
  {
    if |items| > 0 {
      var init := items[..|items| - 1];
      assert AllWellFormed(init) by {
        forall i, j | 0 <= i < |init| && 0 <= j < |init[i].blocks| ensures init[i].blocks[j].WellFormed() {
          assert init[i] == items[i];
        }
      }
      KeySumBounds(init, keyOf, key);
      BlockSumBounds(items[|items| - 1].blocks, Statements);
    }
  }

  /** The same bound for a shared bucket. */
  lemma {:induction false} NameSumBounds(items: seq<Coverage>, groups: seq<ParseGroup>, name: string, key: string)
    requires AllWellFormed(items)
    ensures 0 <= NameSum(items, groups, name, key, true) <= NameSum(items, groups, name, key, false)
  {
    if |groups| > 0 {
      NameSumBounds(items, groups[..|groups| - 1], name, key);
      KeySumBounds(items, groups[|groups| - 1].keyFunc, key);
    }
  }

  /** Grouping every file under one key gives that key the overall statement
      totals of the breakdown. */
  lemma {:induction false} SingleKeyIsOverall(items: seq<Coverage>, keyOf: string -> string, key: string, c: bool)
    requires forall i :: 0 <= i < |items| ==> keyOf(items[i].fileName) == key
    ensures KeySum(items, keyOf, key, c) == ItemsSum(items, Statements, c)
  {
    if |items| > 0 {
      var init := items[..|items| - 1];
      forall i | 0 <= i < |init| ensures keyOf(init[i].fileName) == key {
        assert init[i] == items[i];
      }
      SingleKeyIsOverall(init, keyOf, key, c);
    }
  }

  /** Key sums are additive over concatenation of the records. */
  lemma {:induction false} KeySumAppend(a: seq<Coverage>, b: seq<Coverage>, keyOf: string -> string, key: string, c: bool)
    ensures KeySum(a + b, keyOf, key, c) == KeySum(a, keyOf, key, c) + KeySum(b, keyOf, key, c)
  {
    if |b| == 0 {
      assert a + b == a;
    } else {
      assert (a + b)[..|a + b| - 1] == a + b[..|b| - 1];
      KeySumAppend(a, b[..|b| - 1], keyOf, key, c);
    }
  }

  /** The bucket of name, statements and covered statements per key, holds the
      sums over the specifications groups. */
  ghost predicate BucketHolds(stmts: map<string, int>, cov: map<string, int>,
                              items: seq<Coverage>, groups: seq<ParseGroup>, name: string)
  {
    && stmts.Keys == NameKeys(items, groups, name)
    && forall key :: Get(stmts, key) == NameSum(items, groups, name, key, false)
                  && Get(cov, key) == NameSum(items, groups, name, key, true)
  }

  /** ratios holds the ratio of every key of the bucket. */
  ghost predicate RatiosHold(ratios: map<string, real>, stmts: map<string, int>, cov: map<string, int>)
  {
    && ratios.Keys == stmts.Keys
    && forall key :: key in ratios ==> ratios[key] == Ratio(Get(cov, key), stmts[key])
  }

  /** Adding a specification with another name leaves a bucket's sums alone. */
  lemma OtherNameStep(items: seq<Coverage>, done: seq<ParseGroup>, group: ParseGroup, name: string)
    requires group.name != name
    ensures NameKeys(items, done + [group], name) == NameKeys(items, done, name)
    ensures forall key, c :: NameSum(items, done + [group], name, key, c) == NameSum(items, done, name, key, c)
  {
    assert (done + [group])[..|done|] == done;
  }

  /** Adding a specification with this name adds its key sums to the bucket. */
  lemma SameNameStep(items: seq<Coverage>, done: seq<ParseGroup>, group: ParseGroup)
    ensures NameKeys(items, done + [group], group.name) == NameKeys(items, done, group.name) + KeysOf(items, group.keyFunc)
    ensures forall key, c :: NameSum(items, done + [group], group.name, key, c)
                          == NameSum(items, done, group.name, key, c) + KeySum(items, group.keyFunc, key, c)
  {
    assert (done + [group])[..|done|] == done;
  }

  /** Accumulating one more specification into the bucket of its name keeps
      the bucket equal to the sums over the specifications so far. */
  lemma BucketStep(s: map<string, int>, c: map<string, int>, s': map<string, int>, c': map<string, int>,
                   items: seq<Coverage>, done: seq<ParseGroup>, group: ParseGroup)
    requires BucketHolds(s, c, items, done, group.name)
    requires s'.Keys == s.Keys + KeysOf(items, group.keyFunc)
    requires forall key :: Get(s', key) == Get(s, key) + KeySum(items, group.keyFunc, key, false)
    requires forall key :: Get(c', key) == Get(c, key) + KeySum(items, group.keyFunc, key, true)
    ensures BucketHolds(s', c', items, done + [group], group.name)
  {
    SameNameStep(items, done, group);
  }

  /** Once every bucket holds its sums and its ratios, each ratio is the one
      of the name's sums, within [0, 1] for well-formed blocks. */
  lemma RatiosOfBuckets(result: ParseGroupResult, statements: map<string, map<string, int>>,
                        covered: map<string, map<string, int>>, items: seq<Coverage>, groups: seq<ParseGroup>)
    requires result.Keys == statements.Keys == covered.Keys
    requires forall name :: name in statements ==> BucketHolds(statements[name], covered[name], items, groups, name)
    requires forall name :: name in result ==> RatiosHold(result[name], statements[name], covered[name])
    ensures forall name :: name in result ==> result[name].Keys == NameKeys(items, groups, name)
    ensures forall name, key :: name in result && key in result[name] ==>
      result[name][key] == Ratio(NameSum(items, groups, name, key, true), NameSum(items, groups, name, key, false))
    ensures AllWellFormed(items) ==>
      forall name, key :: name in result && key in result[name] ==> 0.0 <= result[name][key] <= 1.0
  {
    forall name, key | name in result && key in result[name]
      ensures result[name][key] == Ratio(NameSum(items, groups, name, key, true), NameSum(items, groups, name, key, false))
      ensures AllWellFormed(items) ==> 0.0 <= result[name][key] <= 1.0
    {
      assert Get(statements[name], key) == statements[name][key];
      if AllWellFormed(items) {
        NameSumBounds(items, groups, name, key);
      }
    }
  }

  /** The accumulation of one record's blocks extends the accumulated prefix
      of records by that record. */
  lemma AccumulateItemStep(stmts: map<string, int>, cov: map<string, int>,
                           s1: map<string, int>, c1: map<string, int>, s2: map<string, int>, c2: map<string, int>,
                           prefix: seq<Coverage>, item: Coverage, keyOf: string -> string)
    requires s1.Keys == stmts.Keys + KeysOf(prefix, keyOf)
    requires forall k :: Get(s1, k) == Get(stmts, k) + KeySum(prefix, keyOf, k, false)
    requires forall k :: Get(c1, k) == Get(cov, k) + KeySum(prefix, keyOf, k, true)
    requires var key := keyOf(item.fileName);
      s2 == if |item.blocks| == 0 then s1 else s1[key := Get(s1, key) + BlockSum(item.blocks, Statements, false)]
    requires forall k :: k != keyOf(item.fileName) ==> Get(c2, k) == Get(c1, k)
    requires Get(c2, keyOf(item.fileName)) == Get(c1, keyOf(item.fileName)) + BlockSum(item.blocks, Statements, true)
    ensures s2.Keys == stmts.Keys + KeysOf(prefix + [item], keyOf)
    ensures forall k :: Get(s2, k) == Get(stmts, k) + KeySum(prefix + [item], keyOf, k, false)
    ensures forall k :: Get(c2, k) == Get(cov, k) + KeySum(prefix + [item], keyOf, k, true)
  {
    assert (prefix + [item])[..|prefix|] == prefix;
  }

  /** The innermost loop: every block adds its statements to key in the
      statement map, and when executed to key in the covered map. */
  method AccumulateBlocks(stmts: map<string, int>, cov: map<string, int>, key: string, blocks: seq<Block>)
    returns (stmts': map<string, int>, cov': map<string, int>)
    ensures stmts' == if |blocks| == 0 then stmts else stmts[key := Get(stmts, key) + BlockSum(blocks, Statements, false)]
    ensures forall k :: k != key ==> Get(cov', k) == Get(cov, k)
    ensures Get(cov', key) == Get(cov, key) + BlockSum(blocks, Statements, true)
  {
    stmts', cov' := stmts, cov;
    for j := 0 to |blocks|
      invariant stmts' == if j == 0 then stmts else stmts[key := Get(stmts, key) + BlockSum(blocks[..j], Statements, false)]
      invariant forall k :: k != key ==> Get(cov', k) == Get(cov, k)
      invariant Get(cov', key) == Get(cov, key) + BlockSum(blocks[..j], Statements, true)
    {
      var b := blocks[j];
      assert blocks[..j + 1][..j] == blocks[..j];
      stmts' := stmts'[key := Get(stmts', key) + b.numStmt];
      if b.count > 0 {
        cov' := cov'[key := Get(cov', key) + b.numStmt];
      }
    }
    assert blocks[..|blocks|] == blocks;
  }

  /** The two inner loops of one specification: every block of every record
      adds its statements, and when executed its statements again, under the
      key of the record's file. A key enters the statement map with the first
      block that carries it. */
  method AccumulateBucket(stmts: map<string, int>, cov: map<string, int>, items: seq<Coverage>, keyOf: string -> string)
    returns (stmts': map<string, int>, cov': map<string, int>)
    ensures stmts'.Keys == stmts.Keys + KeysOf(items, keyOf)
    ensures forall key :: Get(stmts', key) == Get(stmts, key) + KeySum(items, keyOf, key, false)
    ensures forall key :: Get(cov', key) == Get(cov, key) + KeySum(items, keyOf, key, true)
  {
    stmts', cov' := stmts, cov;
    for i := 0 to |items|
      invariant stmts'.Keys == stmts.Keys + KeysOf(items[..i], keyOf)
      invariant forall k :: Get(stmts', k) == Get(stmts, k) + KeySum(items[..i], keyOf, k, false)
      invariant forall k :: Get(cov', k) == Get(cov, k) + KeySum(items[..i], keyOf, k, true)
    {
      var item := items[i];
      var key := keyOf(item.fileName);
      ghost var s1, c1 := stmts', cov';
      stmts', cov' := AccumulateBlocks(stmts', cov', key, item.blocks);
      AccumulateItemStep(stmts, cov, s1, c1, stmts', cov', items[..i], item, keyOf);
      PrefixStep(items, i);
    }
    assert items[..|items|] == items;
  }

  /** The last loop of one specification: every key of the statement map gets
      covered/statements, or 0 when it has no statements; keys already in
      ratios but not in the statement map keep their value. */
  method SetRatios(ratios: map<string, real>, stmts: map<string, int>, cov: map<string, int>)
    returns (ratios': map<string, real>)
    ensures ratios'.Keys == ratios.Keys + stmts.Keys
    ensures forall key :: key in stmts ==> ratios'[key] == Ratio(Get(cov, key), stmts[key])
    ensures forall key :: key in ratios && key !in stmts ==> ratios'[key] == ratios[key]
  {
    ratios' := ratios;
    var pending := stmts.Keys;
    while pending != {}
      invariant pending <= stmts.Keys
      invariant ratios'.Keys == ratios.Keys + (stmts.Keys - pending)
      invariant forall key :: key in stmts && key !in pending ==> ratios'[key] == Ratio(Get(cov, key), stmts[key])
      invariant forall key :: key in ratios && key !in stmts ==> ratios'[key] == ratios[key]
      decreases pending
    {
      var key :| key in pending;
      var total := stmts[key];
      var coveredStmts := Get(cov, key);
      if total == 0 {
        ratios' := ratios'[key := 0.0];
      } else {
        ratios' := ratios'[key := coveredStmts as real / total as real];
      }
      pending := pending - {key};
    }
  }

  /** The state of GroupCoverage after the specifications done: one bucket
      per name, holding the sums of its specifications and the ratios of
      every key. */
  ghost predicate StateHolds(result: ParseGroupResult, statements: map<string, map<string, int>>,
                             covered: map<string, map<string, int>>, items: seq<Coverage>, done: seq<ParseGroup>)
  {
    && result.Keys == statements.Keys == covered.Keys == GroupNames(done)
    && (forall name :: name in statements ==> BucketHolds(statements[name], covered[name], items, done, name))
    && (forall name :: name in result ==> RatiosHold(result[name], statements[name], covered[name]))
  }

  /** Processing one more specification keeps StateHolds: the maps as found
      (result0, statements0, covered0) get an empty bucket for a new name
      (result1, statements1, covered1), the bucket is accumulated into stmts
      and cov, and its ratios are set. */
  lemma GroupStep(result0: ParseGroupResult, statements0: map<string, map<string, int>>,
                  covered0: map<string, map<string, int>>,
                  result1: ParseGroupResult, statements1: map<string, map<string, int>>,
                  covered1: map<string, map<string, int>>, items: seq<Coverage>, groups: seq<ParseGroup>, g: nat,
                  stmts: map<string, int>, cov: map<string, int>, ratios: map<string, real>)
    requires g < |groups|
    requires StateHolds(result0, statements0, covered0, items, groups[..g])
    requires result1 == if groups[g].name in result0 then result0 else result0[groups[g].name := map[]]
    requires statements1 == if groups[g].name in statements0 then statements0 else statements0[groups[g].name := map[]]
    requires covered1 == if groups[g].name in covered0 then covered0 else covered0[groups[g].name := map[]]
    requires stmts.Keys == statements1[groups[g].name].Keys + KeysOf(items, groups[g].keyFunc)
    requires forall key :: Get(stmts, key) == Get(statements1[groups[g].name], key) + KeySum(items, groups[g].keyFunc, key, false)
    requires forall key :: Get(cov, key) == Get(covered1[groups[g].name], key) + KeySum(items, groups[g].keyFunc, key, true)
    requires ratios.Keys == result1[groups[g].name].Keys + stmts.Keys
    requires forall key :: key in stmts ==> ratios[key] == Ratio(Get(cov, key), stmts[key])
    ensures StateHolds(result1[groups[g].name := ratios], statements1[groups[g].name := stmts],
                       covered1[groups[g].name := cov], items, groups[..g + 1])
  {
    var name := groups[g].name;
    UpdateCreated(result0, result1, name, map[], ratios);
    UpdateCreated(statements0, statements1, name, map[], stmts);
    UpdateCreated(covered0, covered1, name, map[], cov);
    BucketStepFrom(result0, statements0, covered0, items, groups, g,
                   result1[name], statements1[name], covered1[name], stmts, cov, ratios);
  }

  /** The prefix of one more specification. */
  lemma PrefixStep<T>(xs: seq<T>, i: nat)
    requires i < |xs|
    ensures xs[..i + 1] == xs[..i] + [xs[i]]
  {
  }

  /** Creating an entry and then overwriting it is the same as overwriting. */
  lemma UpdateCreated<V>(m0: map<string, V>, m1: map<string, V>, k: string, empty: V, v: V)
    requires m1 == if k in m0 then m0 else m0[k := empty]
    ensures m1[k := v] == m0[k := v]
  {
  }

  /** The bucket of name as found holds the sums of the specifications done,
      whether it existed or is new and empty. */
  lemma FoundBucket(result: ParseGroupResult, statements: map<string, map<string, int>>,
                    covered: map<string, map<string, int>>, items: seq<Coverage>, done: seq<ParseGroup>,
                    name: string, r: map<string, real>, s: map<string, int>, c: map<string, int>)
    requires StateHolds(result, statements, covered, items, done)
    requires r == if name in result then result[name] else map[]
    requires s == if name in statements then statements[name] else map[]
    requires c == if name in covered then covered[name] else map[]
    ensures BucketHolds(s, c, items, done, name)
    ensures r.Keys == s.Keys
  {
    if name !in statements {
      AbsentName(items, done, name);
    }
  }

  /** GroupStep over the maps as found, given the buckets the loop works on. */
  lemma BucketStepFrom(result: ParseGroupResult, statements: map<string, map<string, int>>,
                       covered: map<string, map<string, int>>, items: seq<Coverage>, groups: seq<ParseGroup>, g: nat,
                       r: map<string, real>, s: map<string, int>, c: map<string, int>,
                       stmts: map<string, int>, cov: map<string, int>, ratios: map<string, real>)
    requires g < |groups|
    requires StateHolds(result, statements, covered, items, groups[..g])
    requires r == if groups[g].name in result then result[groups[g].name] else map[]
    requires s == if groups[g].name in statements then statements[groups[g].name] else map[]
    requires c == if groups[g].name in covered then covered[groups[g].name] else map[]
    requires stmts.Keys == s.Keys + KeysOf(items, groups[g].keyFunc)
    requires forall key :: Get(stmts, key) == Get(s, key) + KeySum(items, groups[g].keyFunc, key, false)
    requires forall key :: Get(cov, key) == Get(c, key) + KeySum(items, groups[g].keyFunc, key, true)
    requires ratios.Keys == r.Keys + stmts.Keys
    requires forall key :: key in stmts ==> ratios[key] == Ratio(Get(cov, key), stmts[key])
    ensures StateHolds(result[groups[g].name := ratios], statements[groups[g].name := stmts],
                       covered[groups[g].name := cov], items, groups[..g + 1])
  {
    PrefixStep(groups, g);
    NewBucket(result, statements, covered, items, groups[..g], groups[g], r, s, c, stmts, cov, ratios);
    var name := groups[g].name;
    OthersStep(result, statements, covered, result[name := ratios], statements[name := stmts], covered[name := cov],
               items, groups[..g], groups[g], stmts, cov, ratios);
  }

  /** The bucket just processed holds the sums over the specifications done
      and this one, and the ratio of each of its keys. */
  lemma NewBucket(result: ParseGroupResult, statements: map<string, map<string, int>>,
                  covered: map<string, map<string, int>>, items: seq<Coverage>, done: seq<ParseGroup>, group: ParseGroup,
                  r: map<string, real>, s: map<string, int>, c: map<string, int>,
                  stmts: map<string, int>, cov: map<string, int>, ratios: map<string, real>)
    requires StateHolds(result, statements, covered, items, done)
    requires r == if group.name in result then result[group.name] else map[]
    requires s == if group.name in statements then statements[group.name] else map[]
    requires c == if group.name in covered then covered[group.name] else map[]
    requires stmts.Keys == s.Keys + KeysOf(items, group.keyFunc)
    requires forall key :: Get(stmts, key) == Get(s, key) + KeySum(items, group.keyFunc, key, false)
    requires forall key :: Get(cov, key) == Get(c, key) + KeySum(items, group.keyFunc, key, true)
    requires ratios.Keys == r.Keys + stmts.Keys
    requires forall key :: key in stmts ==> ratios[key] == Ratio(Get(cov, key), stmts[key])
    ensures BucketHolds(stmts, cov, items, done + [group], group.name)
    ensures RatiosHold(ratios, stmts, cov)
  {
    FoundBucket(result, statements, covered, items, done, group.name, r, s, c);
    BucketStep(s, c, stmts, cov, items, done, group);
  }

  /** Replacing the bucket of one name by one that holds its sums and ratios
      keeps StateHolds, with that name's specification added. */
  lemma OthersStep(result: ParseGroupResult, statements: map<string, map<string, int>>,
                   covered: map<string, map<string, int>>,
                   result': ParseGroupResult, statements': map<string, map<string, int>>,
                   covered': map<string, map<string, int>>, items: seq<Coverage>, done: seq<ParseGroup>, group: ParseGroup,
                   stmts: map<string, int>, cov: map<string, int>, ratios: map<string, real>)
    requires StateHolds(result, statements, covered, items, done)
    requires result' == result[group.name := ratios]
    requires statements' == statements[group.name := stmts]
    requires covered' == covered[group.name := cov]
    requires BucketHolds(stmts, cov, items, done + [group], group.name)
    requires RatiosHold(ratios, stmts, cov)
    ensures StateHolds(result', statements', covered', items, done + [group])
  {
    BucketsStep(statements, covered, statements', covered', stmts, cov, items, done, group);
    RatiosStep(result, statements, covered, result', statements', covered', group.name, ratios, stmts, cov);
    NamesStep(done, group);
    KeysAfterUpdate(result, group.name, ratios);
    KeysAfterUpdate(statements, group.name, stmts);
    KeysAfterUpdate(covered, group.name, cov);
  }

  /** The keys of a map after one update. */
  lemma KeysAfterUpdate<V>(m: map<string, V>, k: string, v: V)
    ensures m[k := v].Keys == m.Keys + {k}
  {
  }

  /** The names after one more specification. */
  lemma NamesStep(done: seq<ParseGroup>, group: ParseGroup)
    ensures GroupNames(done + [group]) == GroupNames(done) + {group.name}
  {
    assert (done + [group])[..|done|] == done;
  }

  /** The buckets of the other names keep holding their sums. */
  lemma BucketsStep(statements: map<string, map<string, int>>, covered: map<string, map<string, int>>,
                    statements': map<string, map<string, int>>, covered': map<string, map<string, int>>,
                    stmts: map<string, int>, cov: map<string, int>,
                    items: seq<Coverage>, done: seq<ParseGroup>, group: ParseGroup)
    requires statements.Keys == covered.Keys
    requires statements' == statements[group.name := stmts] && covered' == covered[group.name := cov]
    requires forall name :: name in statements ==> BucketHolds(statements[name], covered[name], items, done, name)
    requires BucketHolds(stmts, cov, items, done + [group], group.name)
    ensures forall name :: name in statements' ==> BucketHolds(statements'[name], covered'[name], items, done + [group], name)
  {
    forall n | n in statements' && n != group.name
      ensures BucketHolds(statements'[n], covered'[n], items, done + [group], n)
    {
      OtherNameStep(items, done, group, n);
    }
  }

  /** The ratios of the other names stay those of their buckets. */
  lemma RatiosStep(result: ParseGroupResult, statements: map<string, map<string, int>>, covered: map<string, map<string, int>>,
                   result': ParseGroupResult, statements': map<string, map<string, int>>, covered': map<string, map<string, int>>,
                   name: string, ratios: map<string, real>, stmts: map<string, int>, cov: map<string, int>)
    requires forall n :: n in result ==> n in statements && n in covered && RatiosHold(result[n], statements[n], covered[n])
    requires result' == result[name := ratios] && statements' == statements[name := stmts] && covered' == covered[name := cov]
    requires RatiosHold(ratios, stmts, cov)
    ensures forall n :: n in result' ==> RatiosHold(result'[n], statements'[n], covered'[n])
  {
  }

  /** For every specification in turn: accumulate the statements and covered
      statements per key in the bucket of the specification's name, then set
      the ratio of every key of that bucket. Specifications sharing a name
      share the bucket. */
  method GroupCoverage(items: seq<Coverage>, groups: seq<ParseGroup>) returns (result: ParseGroupResult)
    ensures result.Keys == GroupNames(groups)
    ensures forall name :: name in result ==> result[name].Keys == NameKeys(items, groups, name)
    ensures forall name, key :: name in result && key in result[name] ==>
      result[name][key] == Ratio(NameSum(items, groups, name, key, true), NameSum(items, groups, name, key, false))
    ensures AllWellFormed(items) ==>
      forall name, key :: name in result && key in result[name] ==> 0.0 <= result[name][key] <= 1.0
  {
    result := map[];
    var statements: map<string, map<string, int>> := map[];
    var covered: map<string, map<string, int>> := map[];

    for g := 0 to |groups|
      invariant StateHolds(result, statements, covered, items, groups[..g])
    {
      var group := groups[g];
      var name := group.name;
      ghost var result0, statements0, covered0 := result, statements, covered;
      if name !in result {
        result := result[name := map[]];
      }
      if name !in statements {
        statements := statements[name := map[]];
      }
      if name !in covered {
        covered := covered[name := map[]];
      }

      var stmts, cov := AccumulateBucket(statements[name], covered[name], items, group.keyFunc);
      var ratios := SetRatios(result[name], stmts, cov);
      GroupStep(result0, statements0, covered0, result, statements, covered, items, groups, g, stmts, cov, ratios);
      statements := statements[name := stmts];
      covered := covered[name := cov];
      result := result[name := ratios];
    }
    assert groups[..|groups|] == groups;
    RatiosOfBuckets(result, statements, covered, items, groups);
  }
}
