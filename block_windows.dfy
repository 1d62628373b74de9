/**
 * `getLogsForBlockInterval` (scripts/utils/index.js): a block range is cut
 * into closed slices whose ends are at most `BlockInterval` apart (up to
 * 8001 blocks each) and every named filter is
 * queried slice by slice, its results appended to that filter's list.
 *
 * The slicing is reproduced as written: a slice runs from `i` to
 * `min(end, i + 8000)` and the next one starts at `i + 8000`, so adjacent
 * slices share their boundary block and a range whose length is a multiple
 * of 8000 ends with the one-block slice `[end, end]`. The provider's
 * `queryFilter` is the parameter `queryFilter`.
 */
module BlockWindows {

  const BlockInterval: int := 8000

  /** A closed block range `[from, to]` passed to one `queryFilter` call. */
  datatype BlockRange = BlockRange(from: int, to: int)

  function Min(a: int, b: int): int { if a <= b then a else b }

  /**
   * The slices the loop visits, in order, when it starts at `i`: there are
   * none exactly when `i > end`, and otherwise the first starts at `i`.
   */
  function Slices(i: int, end: int): (r: seq<BlockRange>)
    ensures r == [] <==> i > end
    ensures r != [] ==> r[0].from == i
    decreases end - i
  {
    if i > end then [] else [BlockRange(i, Min(end, i + BlockInterval))] + Slices(i + BlockInterval, end)
  }

  /**
   * A filter's accumulated logs: its query results, slice after slice.
   * Every log comes from the query of one of the slices.
   */
  function Collected<F, L>(queryFilter: (F, int, int) -> seq<L>, filter: F, ranges: seq<BlockRange>): (r: seq<L>)
    ensures forall x :: x in r ==> FromSomeQuery(queryFilter, filter, ranges, x)
  {
    if ranges == [] then []
    else
      var init := ranges[..|ranges| - 1];
      var last := ranges[|ranges| - 1];
      var prefix := Collected(queryFilter, filter, init);
      assert forall x :: x in prefix ==> FromSomeQuery(queryFilter, filter, ranges, x) by {
        forall x | x in prefix
          ensures FromSomeQuery(queryFilter, filter, ranges, x)
        {
          var k :| 0 <= k < |init| && x in queryFilter(filter, init[k].from, init[k].to);
          assert init[k] == ranges[k];
        }
      }
      prefix + queryFilter(filter, last.from, last.to)
  }

  /** `x` is among the results of querying `filter` over one of `ranges`. */
  ghost predicate FromSomeQuery<F, L>(queryFilter: (F, int, int) -> seq<L>, filter: F, ranges: seq<BlockRange>, x: L)
  {
    exists k :: 0 <= k < |ranges| && x in queryFilter(filter, ranges[k].from, ranges[k].to)
  }

  /** `names` lists the keys of `filters` once each, as `Object.keys` does. */
  ghost predicate KeyOrder<F>(names: seq<string>, filters: map<string, F>)
  {
    && (forall n :: n in names <==> n in filters)
    && (forall i, j :: 0 <= i < j < |names| ==> names[i] != names[j])
  }

  /**
   * The dictionary `getLogsForBlockInterval` returns: a list for every
   * filter when at least one slice is queried, and nothing otherwise.
   */
  function LogsFor<F, L>(queryFilter: (F, int, int) -> seq<L>, filters: map<string, F>, initial: int, end: int)
    : (logs: map<string, seq<L>>)
    ensures logs.Keys == if initial <= end then filters.Keys else {}
  {
    Accumulated(queryFilter, filters, Slices(initial, end))
  }

  /** The dictionary once the slices `done` have been scanned: nothing before the first slice. */
  function Accumulated<F, L>(queryFilter: (F, int, int) -> seq<L>, filters: map<string, F>, done: seq<BlockRange>)
    : map<string, seq<L>>
  {
    if done == [] then map[] else map n | n in filters :: Collected(queryFilter, filters[n], done)
  }

  /**
   * The inner loop of `getLogsForBlockInterval`: query every filter, in key
   * order, over `[fromBlock, toBlock]` and append the result to its list
   * (`logs[filterName] = [...(logs[filterName] ?? []), ...result]`).
   */
  method AppendSlice<F, L>(logs: map<string, seq<L>>, names: seq<string>, filters: map<string, F>,
                           fromBlock: int, toBlock: int, queryFilter: (F, int, int) -> seq<L>)
    returns (logs': map<string, seq<L>>)
    requires KeyOrder(names, filters)
    ensures forall n :: n in logs' <==> n in logs || n in filters
    ensures forall n :: n in logs' && n !in filters ==> logs'[n] == logs[n]
    ensures forall n :: n in filters ==>
              logs'[n] == (if n in logs then logs[n] else []) + queryFilter(filters[n], fromBlock, toBlock)
  {
    logs' := logs;
    for j := 0 to |names|
      invariant forall n :: n in logs' <==> n in logs || n in names[..j]
      invariant forall n :: n in logs' && n !in names[..j] ==> logs'[n] == logs[n]
      invariant forall n :: n in names[..j] ==>
                  logs'[n] == (if n in logs then logs[n] else []) + queryFilter(filters[n], fromBlock, toBlock)
    {
      var name := names[j];
      var result := queryFilter(filters[name], fromBlock, toBlock);
      logs' := logs'[name := (if name in logs' then logs'[name] else []) + result];
      assert names[..j + 1] == names[..j] + [name];
    }
    assert names[..|names|] == names;
  }

  /**
   * `getLogsForBlockInterval(initialBlock, endBlock, contract, filters)`:
   * for each slice, in ascending order, query every filter and append.
   */
  method GetLogsForBlockInterval<F, L>(initial: int, end: int, names: seq<string>, filters: map<string, F>,
                                       queryFilter: (F, int, int) -> seq<L>)
    returns (logs: map<string, seq<L>>)
    requires KeyOrder(names, filters)
    ensures logs == LogsFor(queryFilter, filters, initial, end)
  {
    logs := map[];
    ghost var done: seq<BlockRange> := [];
    var i := initial;
    while i <= end
      invariant done + Slices(i, end) == Slices(initial, end)
      invariant logs == Accumulated(queryFilter, filters, done)
      decreases end - i
    {
      var fromBlock := i;
      var toBlock := Min(end, i + BlockInterval);
      ghost var slice := BlockRange(fromBlock, toBlock);
      ghost var current := done + [slice];
      SlicesStep(i, end);
      assert current + Slices(i + BlockInterval, end) == Slices(initial, end);
      ghost var before := logs;
      logs := AppendSlice(logs, names, filters, fromBlock, toBlock, queryFilter);
      AccumulatedStep(queryFilter, filters, done, slice, before, logs);
      done := current;
      i := i + BlockInterval;
    }
    assert done == Slices(initial, end);
  }

  /** From a start at or below `end`, the first slice is `[i, min(end, i + 8000)]`. */
  lemma SlicesStep(i: int, end: int)
    requires i <= end
    ensures Slices(i, end) == [BlockRange(i, Min(end, i + BlockInterval))] + Slices(i + BlockInterval, end)
  {
  }

  /** One run of `AppendSlice` turns the dictionary for `done` into the dictionary for `done + [slice]`. */
  lemma AccumulatedStep<F, L>(queryFilter: (F, int, int) -> seq<L>, filters: map<string, F>, done: seq<BlockRange>,
                              slice: BlockRange, logs: map<string, seq<L>>, logs': map<string, seq<L>>)
    requires logs == Accumulated(queryFilter, filters, done)
    requires forall n :: n in logs' <==> n in logs || n in filters
    requires forall n :: n in logs' && n !in filters ==> logs'[n] == logs[n]
    requires forall n :: n in filters ==>
               logs'[n] == (if n in logs then logs[n] else []) + queryFilter(filters[n], slice.from, slice.to)
    ensures logs' == Accumulated(queryFilter, filters, done + [slice])
  {
    var after := Accumulated(queryFilter, filters, done + [slice]);
    forall n | n in filters
      ensures logs'[n] == after[n]
    {
      CollectedSnoc(queryFilter, filters[n], done, slice);
    }
    assert logs'.Keys == after.Keys;
  }

  /** Appending one more range appends its query results to a filter's list. */
  lemma CollectedSnoc<F, L>(queryFilter: (F, int, int) -> seq<L>, filter: F, ranges: seq<BlockRange>, last: BlockRange)
    ensures Collected(queryFilter, filter, ranges + [last])
            == Collected(queryFilter, filter, ranges) + queryFilter(filter, last.from, last.to)
  {
    assert (ranges + [last])[..|ranges|] == ranges;
  }

  /*
   * The slices.
   */

  /**
   * The k-th slice starts at `initial + 8000 * k` and ends at
   * `min(end, initial + 8000 * k + 8000)`; there is a k-th slice exactly when
   * its start is at most `end`.
   */
  lemma {:induction false} SliceAt(initial: int, end: int, k: nat)
    ensures k < |Slices(initial, end)| <==> initial + BlockInterval * k <= end
    ensures k < |Slices(initial, end)| ==>
              Slices(initial, end)[k]
              == BlockRange(initial + BlockInterval * k, Min(end, initial + BlockInterval * k + BlockInterval))
    decreases k
  {
    if initial <= end && k > 0 {
      SliceAt(initial + BlockInterval, end, k - 1);
    }
  }

  /** Every slice lies inside `[initial, end]`, is non-empty, and its ends are at most 8000 apart (up to 8001 blocks). */
  lemma SlicesBounded(initial: int, end: int)
    ensures forall k :: 0 <= k < |Slices(initial, end)| ==>
              var s := Slices(initial, end)[k];
              initial <= s.from <= s.to <= end && s.to - s.from <= BlockInterval
  {
    forall k | 0 <= k < |Slices(initial, end)|
      ensures var s := Slices(initial, end)[k];
              initial <= s.from <= s.to <= end && s.to - s.from <= BlockInterval
    {
      SliceAt(initial, end, k);
    }
  }

  /** Some range of `ranges` contains block `b`. */
  ghost predicate CoversBlock(ranges: seq<BlockRange>, b: int)
  {
    exists k :: 0 <= k < |ranges| && ranges[k].from <= b <= ranges[k].to
  }

  /**
   * Adjacent slices share their boundary block, and together the slices
   * cover every block of `[initial, end]`: there are no gaps.
   */
  lemma SlicesCoverRange(initial: int, end: int)
    ensures forall k :: 0 <= k < |Slices(initial, end)| - 1 ==>
              Slices(initial, end)[k].to == Slices(initial, end)[k + 1].from
    ensures forall b :: initial <= b <= end ==> CoversBlock(Slices(initial, end), b)
  {
    var S := Slices(initial, end);
    forall k | 0 <= k < |S| - 1
      ensures S[k].to == S[k + 1].from
    {
      SliceAt(initial, end, k);
      SliceAt(initial, end, k + 1);
    }
    forall b | initial <= b <= end
      ensures CoversBlock(S, b)
    {
      var k := (b - initial) / BlockInterval;
      SliceAt(initial, end, k);
      assert S[k].from <= b <= S[k].to;
    }
  }

  /** There are `(end - initial) / 8000 + 1` slices when `initial <= end`, none otherwise. */
  lemma SliceCount(initial: int, end: int)
    ensures |Slices(initial, end)| == if initial <= end then (end - initial) / BlockInterval + 1 else 0
  {
    var n := |Slices(initial, end)|;
    if initial <= end {
      var q := (end - initial) / BlockInterval;
      SliceAt(initial, end, q);
      SliceAt(initial, end, q + 1);
      assert q < n && q + 1 >= n;
    }
  }

  /**
   * When `end - initial` is a multiple of 8000 the last slice is the single
   * block `[end, end]`, already covered by the slice before it (if any).
   */
  lemma DegenerateLastSlice(initial: int, end: int)
    requires initial <= end && (end - initial) % BlockInterval == 0
    ensures |Slices(initial, end)| > 0
    ensures Slices(initial, end)[|Slices(initial, end)| - 1] == BlockRange(end, end)
  {
    SliceCount(initial, end);
    SliceAt(initial, end, (end - initial) / BlockInterval);
  }

  /** Blocks 1000 to 17000 take three queries: [1000, 9000], [9000, 17000] and [17000, 17000]. */
  lemma SlicesExample()
    ensures Slices(1000, 17000) == [BlockRange(1000, 9000), BlockRange(9000, 17000), BlockRange(17000, 17000)]
  {
  }

  /*
   * The accumulated logs.
   */

  /** Read from the front, a filter's logs are its first slice's results followed by the rest. */
  lemma {:induction false} CollectedCons<F, L>(queryFilter: (F, int, int) -> seq<L>, filter: F,
                                                 first: BlockRange, rest: seq<BlockRange>)
    ensures Collected(queryFilter, filter, [first] + rest)
            == queryFilter(filter, first.from, first.to) + Collected(queryFilter, filter, rest)
    decreases |rest|
  {
    var all := [first] + rest;
    if rest != [] {
      assert all[..|all| - 1] == [first] + rest[..|rest| - 1];
      CollectedCons(queryFilter, filter, first, rest[..|rest| - 1]);
    }
  }

  /**
   * A filter name is in the result exactly when it is a filter and at least
   * one slice was queried, and its logs depend on its own filter only: the
   * same filter queried alone gives the same list.
   */
  lemma FiltersIndependent<F, L>(queryFilter: (F, int, int) -> seq<L>, filters: map<string, F>,
                                 initial: int, end: int, name: string)
    ensures name in LogsFor(queryFilter, filters, initial, end) <==> name in filters && initial <= end
    ensures name in filters && initial <= end ==>
              LogsFor(queryFilter, filters, initial, end)[name]
              == LogsFor(queryFilter, map[name := filters[name]], initial, end)[name]
  {
  }

  /** The log list is ordered by block number. */
  ghost predicate SortedByBlock<L>(logs: seq<L>, blockOf: L -> int)
  {
    forall i, j :: 0 <= i < j < |logs| ==> blockOf(logs[i]) <= blockOf(logs[j])
  }

  /** Every log lies in blocks `lo` to `hi`. */
  ghost predicate WithinBlocks<L>(logs: seq<L>, blockOf: L -> int, lo: int, hi: int)
  {
    forall i :: 0 <= i < |logs| ==> lo <= blockOf(logs[i]) <= hi
  }

  /** The provider answers each query with logs of the queried blocks, in block order. */
  ghost predicate OrderedProvider<F(!new), L>(queryFilter: (F, int, int) -> seq<L>, blockOf: L -> int)
  {
    forall f, a, b :: SortedByBlock(queryFilter(f, a, b), blockOf) && WithinBlocks(queryFilter(f, a, b), blockOf, a, b)
  }

  /** Ranges that are non-empty and each ends where or before every later one starts. */
  ghost predicate Ascending(ranges: seq<BlockRange>)
  {
    && (forall k :: 0 <= k < |ranges| ==> ranges[k].from <= ranges[k].to)
    && (forall i, j :: 0 <= i < j < |ranges| ==> ranges[i].to <= ranges[j].from)
  }

  /** The slices are in ascending order. */
  lemma SlicesAscending(initial: int, end: int)
    ensures Ascending(Slices(initial, end))
  {
    var S := Slices(initial, end);
    forall i, j | 0 <= i < j < |S|
      ensures S[i].to <= S[j].from
    {
      SliceAt(initial, end, i);
      SliceAt(initial, end, j);
    }
    SlicesBounded(initial, end);
  }

  /** Two sorted lists, the first ending no later than the second starts, concatenate to a sorted list. */
  lemma ConcatSorted<L>(prefix: seq<L>, tail: seq<L>, blockOf: L -> int, lo: int, mid: int, hi: int)
    requires SortedByBlock(prefix, blockOf) && WithinBlocks(prefix, blockOf, lo, mid)
    requires SortedByBlock(tail, blockOf) && WithinBlocks(tail, blockOf, mid, hi)
    ensures SortedByBlock(prefix + tail, blockOf)
    ensures lo <= mid <= hi ==> WithinBlocks(prefix + tail, blockOf, lo, hi)
  {
    var all := prefix + tail;
    forall i, j | 0 <= i < j < |all|
      ensures blockOf(all[i]) <= blockOf(all[j])
    {
      if j >= |prefix| && i < |prefix| {
        assert all[i] == prefix[i] && all[j] == tail[j - |prefix|];
      }
    }
    if lo <= mid <= hi {
      forall i | 0 <= i < |all|
        ensures lo <= blockOf(all[i]) <= hi
      {
        if i < |prefix| {
          assert all[i] == prefix[i];
        } else {
          assert all[i] == tail[i - |prefix|];
        }
      }
    }
  }

  lemma {:induction false} CollectedSorted<F(!new), L>(queryFilter: (F, int, int) -> seq<L>, blockOf: L -> int,
                                                  filter: F, ranges: seq<BlockRange>)
    requires OrderedProvider(queryFilter, blockOf)
    requires Ascending(ranges)
    ensures SortedByBlock(Collected(queryFilter, filter, ranges), blockOf)
    ensures ranges != [] ==>
              WithinBlocks(Collected(queryFilter, filter, ranges), blockOf, ranges[0].from, ranges[|ranges| - 1].to)
    decreases |ranges|
  {
    if ranges != [] {
      var n := |ranges|;
      var init := ranges[..n - 1];
      var last := ranges[n - 1];
      var prefix := Collected(queryFilter, filter, init);
      var tail := queryFilter(filter, last.from, last.to);
      assert Ascending(init);
      CollectedSorted(queryFilter, blockOf, filter, init);
      assert SortedByBlock(tail, blockOf) && WithinBlocks(tail, blockOf, last.from, last.to);
      assert Collected(queryFilter, filter, ranges) == prefix + tail;
      if init != [] {
        assert init[n - 2].to <= last.from;
        assert WithinBlocks(prefix, blockOf, ranges[0].from, init[n - 2].to);
        ConcatSorted(prefix, tail, blockOf, ranges[0].from, last.from, last.to);
      } else {
        ConcatSorted(prefix, tail, blockOf, last.from, last.from, last.to);
      }
    }
  }

  /**
   * When the provider answers in block order, every filter's list is in
   * non-decreasing block order and within `[initial, end]`. Logs of a
   * boundary block shared by two slices are returned by both queries.
   */
  lemma LogsInBlockOrder<F(!new), L>(queryFilter: (F, int, int) -> seq<L>, blockOf: L -> int,
                               filters: map<string, F>, initial: int, end: int, name: string)
    requires OrderedProvider(queryFilter, blockOf)
    requires name in LogsFor(queryFilter, filters, initial, end)
    ensures SortedByBlock(LogsFor(queryFilter, filters, initial, end)[name], blockOf)
    ensures WithinBlocks(LogsFor(queryFilter, filters, initial, end)[name], blockOf, initial, end)
  {
    var S := Slices(initial, end);
    SlicesBounded(initial, end);
    SlicesAscending(initial, end);
    CollectedSorted(queryFilter, blockOf, filters[name], S);
  }
}
