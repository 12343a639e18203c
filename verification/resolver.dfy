/** Price resolution: for each symbol read from the sheet, in order, the row
    of the earliest snapshot entry with that symbol; symbols the snapshot
    does not list contribute no row. */
module PriceResolver {
  import opened Results
  import opened Ticker

  /** Some entry of `entries` carries symbol `s`. */
  predicate Lists(entries: seq<TickerEntry>, s: string)
  {
    exists i :: 0 <= i < |entries| && entries[i].symbol == s
  }

  /** Position `i` holds the first entry of `entries` with symbol `s`. */
  predicate IsEarliest(entries: seq<TickerEntry>, s: string, i: nat)
  {
    i < |entries| && entries[i].symbol == s
    && forall j :: 0 <= j < i ==> entries[j].symbol != s
  }

  /** The inner scan with its `break`: where the first entry with symbol `s`
      sits, or `None` when there is none. */
  function FirstMatchIndex(s: string, entries: seq<TickerEntry>): (r: Option<nat>)
    ensures r.Some? ==> IsEarliest(entries, s, r.value)
    ensures r.None? <==> !Lists(entries, s)
    decreases |entries|
  {
    if |entries| == 0 then None
    else if entries[0].symbol == s then Some(0)
    else
      match FirstMatchIndex(s, entries[1..])
      case None =>
        assert forall i :: 1 <= i < |entries| ==> entries[i] == entries[1..][i - 1];
        None
      case Some(k) => Some(k + 1)
  }

  /** The rows one symbol adds: the row of its first entry, or nothing. */
  function RowsFor(s: string, entries: seq<TickerEntry>): (rows: seq<Row>)
    ensures |rows| <= 1
    ensures |rows| == 1 <==> Lists(entries, s)
    ensures |rows| == 1 ==>
      exists i: nat :: IsEarliest(entries, s, i) && rows[0] == PriceRow(entries[i])
  {
    match FirstMatchIndex(s, entries)
    case None => []
    case Some(i) => [PriceRow(entries[i])]
  }

  /** The double loop over `symbols` and `entries`: every symbol in order,
      each contributing the rows `RowsFor` gives it. */
  function ResolveRows(symbols: seq<string>, entries: seq<TickerEntry>): (rows: seq<Row>)
    ensures |rows| <= |symbols|
    decreases |symbols|
  {
    if |symbols| == 0 then [] else RowsFor(symbols[0], entries) + ResolveRows(symbols[1..], entries)
  }

  /** The snapshot cut down to entries whose symbol was read from the sheet,
      in snapshot order. */
  function FilterSnapshot(snapshot: seq<TickerEntry>, symbols: seq<string>): (f: seq<TickerEntry>)
    ensures |f| <= |snapshot|
    decreases |snapshot|
  {
    if |snapshot| == 0 then []
    else
      var rest := FilterSnapshot(snapshot[1..], symbols);
      if snapshot[0].symbol in symbols then [snapshot[0]] + rest else rest
  }

  /** The filter keeps exactly the snapshot entries whose symbol was read. */
  lemma {:induction false} FilterKeepsReadSymbols(snapshot: seq<TickerEntry>, symbols: seq<string>)
    ensures forall k :: 0 <= k < |FilterSnapshot(snapshot, symbols)| ==>
      FilterSnapshot(snapshot, symbols)[k].symbol in symbols
      && FilterSnapshot(snapshot, symbols)[k] in snapshot
    ensures forall k :: 0 <= k < |snapshot| ==>
      (snapshot[k] in FilterSnapshot(snapshot, symbols) <==> snapshot[k].symbol in symbols)
    decreases |snapshot|
  {
    if |snapshot| > 0 {
      var f := FilterSnapshot(snapshot, symbols);
      var rest := FilterSnapshot(snapshot[1..], symbols);
      FilterKeepsReadSymbols(snapshot[1..], symbols);
      assert forall k :: 1 <= k < |snapshot| ==> snapshot[k] == snapshot[1..][k - 1];
      if snapshot[0].symbol in symbols {
        assert f == [snapshot[0]] + rest;
      } else {
        assert f == rest;
      }
    }
  }

  /** The resolution as the program performs it: filter the snapshot, then
      scan the filtered list. It yields what scanning the whole snapshot
      yields, so the filter only saves iterations. */
  function GetPricesFromCmc(symbols: seq<string>, snapshot: seq<TickerEntry>): (rows: seq<Row>)
    ensures rows == ResolveRows(symbols, snapshot)
    ensures |rows| <= |symbols|
  {
    FilterIsOnlyAnOptimisation(symbols, snapshot);
    ResolveRows(symbols, FilterSnapshot(snapshot, symbols))
  }

  /** Resolving a concatenation of symbol lists concatenates the results. */
  lemma {:induction false} ResolveRowsAppend(a: seq<string>, b: seq<string>, entries: seq<TickerEntry>)
    ensures ResolveRows(a + b, entries) == ResolveRows(a, entries) + ResolveRows(b, entries)
    decreases |a|
  {
    if |a| == 0 {
      assert a + b == b;
    } else {
      assert (a + b)[1..] == a[1..] + b;
      assert (a + b)[0] == a[0];
      ResolveRowsAppend(a[1..], b, entries);
    }
  }

  /** One step of the scan: the head entry matches, or the rest decides. */
  lemma RowsForUnfold(s: string, entries: seq<TickerEntry>)
    requires |entries| > 0
    ensures RowsFor(s, entries) ==
      if entries[0].symbol == s then [PriceRow(entries[0])] else RowsFor(s, entries[1..])
  {
  }

  /** Filtering keeps, for a symbol it keeps, the earliest entry. */
  lemma {:induction false} FilterKeepsFirstMatch(s: string, snapshot: seq<TickerEntry>, symbols: seq<string>)
    requires s in symbols
    ensures RowsFor(s, FilterSnapshot(snapshot, symbols)) == RowsFor(s, snapshot)
    decreases |snapshot|
  {
    if |snapshot| > 0 {
      var f := FilterSnapshot(snapshot, symbols);
      var rest := FilterSnapshot(snapshot[1..], symbols);
      FilterKeepsFirstMatch(s, snapshot[1..], symbols);
      RowsForUnfold(s, snapshot);
      if snapshot[0].symbol in symbols {
        assert f == [snapshot[0]] + rest;
        assert f[0] == snapshot[0] && f[1..] == rest;
        RowsForUnfold(s, f);
      } else {
        assert f == rest;
      }
    }
  }

  /** Scanning the filtered snapshot resolves every symbol list made of read
      symbols exactly as scanning the full snapshot does. */
  lemma {:induction false} FilteredScanAgrees(q: seq<string>, snapshot: seq<TickerEntry>, symbols: seq<string>)
    requires forall k :: 0 <= k < |q| ==> q[k] in symbols
    ensures ResolveRows(q, FilterSnapshot(snapshot, symbols)) == ResolveRows(q, snapshot)
    decreases |q|
  {
    if |q| > 0 {
      FilterKeepsFirstMatch(q[0], snapshot, symbols);
      FilteredScanAgrees(q[1..], snapshot, symbols);
    }
  }

  /** The filter pass changes nothing but the work done. */
  lemma FilterIsOnlyAnOptimisation(symbols: seq<string>, snapshot: seq<TickerEntry>)
    ensures ResolveRows(symbols, FilterSnapshot(snapshot, symbols)) == ResolveRows(symbols, snapshot)
  {
    FilteredScanAgrees(symbols, snapshot, symbols);
  }

  /** Resolving one more symbol adds exactly the rows `RowsFor` gives it:
      one row when the snapshot lists it, none otherwise. */
  lemma OneSymbolOneRow(prefix: seq<string>, s: string, entries: seq<TickerEntry>)
    ensures ResolveRows(prefix + [s], entries) == ResolveRows(prefix, entries) + RowsFor(s, entries)
  {
    ResolveRowsAppend(prefix, [s], entries);
    assert ResolveRows([s], entries) == RowsFor(s, entries) + ResolveRows([], entries);
  }

  /** Resolving one symbol further along the input list. */
  lemma PrefixStep(symbols: seq<string>, i: nat, entries: seq<TickerEntry>)
    requires i < |symbols|
    ensures ResolveRows(symbols[..i + 1], entries) == ResolveRows(symbols[..i], entries) + RowsFor(symbols[i], entries)
  {
    assert symbols[..i + 1] == symbols[..i] + [symbols[i]];
    OneSymbolOneRow(symbols[..i], symbols[i], entries);
  }

  /** Positions in `symbols` of the symbols that `entries` lists, ascending. */
  function MatchedPositions(symbols: seq<string>, entries: seq<TickerEntry>): (p: seq<nat>)
    ensures forall k :: 0 <= k < |p| ==> p[k] < |symbols|
    decreases |symbols|
  {
    if |symbols| == 0 then []
    else
      var n := |symbols| - 1;
      MatchedPositions(symbols[..n], entries) + (if FirstMatchIndex(symbols[n], entries).Some? then [n] else [])
  }

  /** A symbol's position is matched exactly when the snapshot lists it. */
  lemma {:induction false} MatchedExactlyListed(symbols: seq<string>, entries: seq<TickerEntry>)
    ensures forall i :: 0 <= i < |symbols| ==>
      (i in MatchedPositions(symbols, entries) <==> Lists(entries, symbols[i]))
    decreases |symbols|
  {
    if |symbols| > 0 {
      var n := |symbols| - 1;
      MatchedExactlyListed(symbols[..n], entries);
      assert forall i :: 0 <= i < n ==> symbols[..n][i] == symbols[i];
    }
  }

  /** Matched positions are strictly ascending, so rows keep input order. */
  lemma {:induction false} MatchedAscending(symbols: seq<string>, entries: seq<TickerEntry>)
    ensures forall k, l :: 0 <= k < l < |MatchedPositions(symbols, entries)| ==>
      MatchedPositions(symbols, entries)[k] < MatchedPositions(symbols, entries)[l]
    decreases |symbols|
  {
    if |symbols| > 0 {
      MatchedAscending(symbols[..|symbols| - 1], entries);
    }
  }

  /** There are exactly as many resolved rows as matched symbols. */
  lemma {:induction false} ResolveCountsMatches(symbols: seq<string>, entries: seq<TickerEntry>)
    ensures |ResolveRows(symbols, entries)| == |MatchedPositions(symbols, entries)|
    decreases |symbols|
  {
    if |symbols| > 0 {
      var n := |symbols| - 1;
      ResolveCountsMatches(symbols[..n], entries);
      assert symbols == symbols[..n] + [symbols[n]];
      OneSymbolOneRow(symbols[..n], symbols[n], entries);
    }
  }

  /** The `k`-th resolved row is the row of the `k`-th matched symbol. */
  lemma {:induction false} RowsOfMatchedSymbols(symbols: seq<string>, entries: seq<TickerEntry>)
    ensures |ResolveRows(symbols, entries)| == |MatchedPositions(symbols, entries)|
    ensures forall k :: 0 <= k < |MatchedPositions(symbols, entries)| ==>
      RowsFor(symbols[MatchedPositions(symbols, entries)[k]], entries) == [ResolveRows(symbols, entries)[k]]
    decreases |symbols|
  {
    ResolveCountsMatches(symbols, entries);
    if |symbols| > 0 {
      var n := |symbols| - 1;
      var front := symbols[..n];
      RowsOfMatchedSymbols(front, entries);
      assert symbols == front + [symbols[n]];
      OneSymbolOneRow(front, symbols[n], entries);
      var rows0 := ResolveRows(front, entries);
      var p0 := MatchedPositions(front, entries);
      var last := RowsFor(symbols[n], entries);
      var rows := ResolveRows(symbols, entries);
      var p := MatchedPositions(symbols, entries);
      assert rows == rows0 + last;
      if FirstMatchIndex(symbols[n], entries).Some? {
        assert p == p0 + [n];
        forall k | 0 <= k < |p|
          ensures RowsFor(symbols[p[k]], entries) == [rows[k]]
        {
          if k < |p0| {
            assert p[k] == p0[k] && rows[k] == rows0[k] && front[p0[k]] == symbols[p0[k]];
          } else {
            assert p[k] == n && rows[k] == last[0];
          }
        }
      } else {
        assert p == p0 && rows == rows0;
        forall k | 0 <= k < |p|
          ensures RowsFor(symbols[p[k]], entries) == [rows[k]]
        {
          assert front[p0[k]] == symbols[p0[k]];
        }
      }
    }
  }

  /** A listed symbol at position `i` owns a row at some matched index. */
  lemma RowOfListedSymbol(symbols: seq<string>, entries: seq<TickerEntry>, i: nat)
    requires i < |symbols| && Lists(entries, symbols[i])
    ensures exists k ::
      (0 <= k < |MatchedPositions(symbols, entries)|
       && MatchedPositions(symbols, entries)[k] == i
       && k < |ResolveRows(symbols, entries)|
       && [ResolveRows(symbols, entries)[k]] == RowsFor(symbols[i], entries))
  {
    MatchedExactlyListed(symbols, entries);
    RowsOfMatchedSymbols(symbols, entries);
    var p := MatchedPositions(symbols, entries);
    var k :| 0 <= k < |p| && p[k] == i;
    assert [ResolveRows(symbols, entries)[k]] == RowsFor(symbols[p[k]], entries);
  }

  /** Rows of earlier input positions come earlier. */
  lemma PositionOrderIsRowOrder(symbols: seq<string>, entries: seq<TickerEntry>, k: nat, l: nat)
    requires k < |MatchedPositions(symbols, entries)| && l < |MatchedPositions(symbols, entries)|
    requires MatchedPositions(symbols, entries)[k] < MatchedPositions(symbols, entries)[l]
    ensures k < l
  {
    MatchedAscending(symbols, entries);
  }

  /** A symbol read twice is priced twice, with its own row both times. */
  lemma RepeatedSymbolRepeatsRow(symbols: seq<string>, entries: seq<TickerEntry>, i: nat, j: nat)
    requires i < j < |symbols| && symbols[i] == symbols[j] && Lists(entries, symbols[i])
    ensures exists k, l ::
      (0 <= k < l < |ResolveRows(symbols, entries)|
       && ResolveRows(symbols, entries)[k] == ResolveRows(symbols, entries)[l]
       && [ResolveRows(symbols, entries)[k]] == RowsFor(symbols[i], entries))
  {
    var rows := ResolveRows(symbols, entries);
    var p := MatchedPositions(symbols, entries);
    RowOfListedSymbol(symbols, entries, i);
    RowOfListedSymbol(symbols, entries, j);
    var k :| 0 <= k < |p| && p[k] == i && k < |rows| && [rows[k]] == RowsFor(symbols[i], entries);
    var l :| 0 <= l < |p| && p[l] == j && l < |rows| && [rows[l]] == RowsFor(symbols[j], entries);
    PositionOrderIsRowOrder(symbols, entries, k, l);
    assert rows[k] == rows[l];
  }

  /** A scan that stops at the earliest match yields that entry's row. */
  lemma ScanHit(s: string, entries: seq<TickerEntry>, j: nat)
    requires IsEarliest(entries, s, j)
    ensures RowsFor(s, entries) == [PriceRow(entries[j])]
  {
  }

  /** A scan that reaches the end without a match yields no row. */
  lemma ScanMiss(s: string, entries: seq<TickerEntry>)
    requires forall m :: 0 <= m < |entries| ==> entries[m].symbol != s
    ensures RowsFor(s, entries) == []
  {
  }

  /** The inner loop for one symbol: walk the filtered list, take the row
      of the first entry with that symbol and stop. */
  method ScanForSymbol(symbol: string, filtered: seq<TickerEntry>) returns (rows: seq<Row>)
    ensures rows == RowsFor(symbol, filtered)
  {
    rows := [];
    var j := 0;
    while j < |filtered|
      invariant 0 <= j <= |filtered|
      invariant forall m :: 0 <= m < j ==> filtered[m].symbol != symbol
    {
      if symbol == filtered[j].symbol {
        ScanHit(symbol, filtered, j);
        rows := [PriceRow(filtered[j])];
        return;
      }
      j := j + 1;
    }
    ScanMiss(symbol, filtered);
  }

  /** The program's loop: filter the snapshot, then for each symbol append
      what the scan of the filtered list finds. */
  method ResolvePrices(symbols: seq<string>, snapshot: seq<TickerEntry>) returns (valuesToWrite: seq<Row>)
    ensures valuesToWrite == ResolveRows(symbols, snapshot)
  {
    var filtered := FilterSnapshot(snapshot, symbols);
    valuesToWrite := [];
    var i := 0;
    while i < |symbols|
      invariant 0 <= i <= |symbols|
      invariant valuesToWrite == ResolveRows(symbols[..i], filtered)
    {
      var found := ScanForSymbol(symbols[i], filtered);
      PrefixStep(symbols, i, filtered);
      valuesToWrite := valuesToWrite + found;
      i := i + 1;
    }
    assert symbols[..i] == symbols;
    FilterIsOnlyAnOptimisation(symbols, snapshot);
  }
}
