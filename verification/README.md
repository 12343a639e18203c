# Crypto sheet update — a Dafny model

The program reads a list of ticker symbols from one range of a spreadsheet,
prices each symbol from a market-data ticker snapshot, and writes the prices
back to another range together with the time of the update, in one batch
update. This project models the pure part of that run:

- **Reading the symbols** (`SymbolGrid`): the read response's `values` grid,
  absent when the range is empty, flattened row by row into the symbol list.
- **Price resolution** (`PriceResolver`): the snapshot is filtered to entries
  whose symbol was read. Then, for each read symbol in order, the first
  matching entry gives one row `[price_usd, market_cap_usd,
  percent_change_24h + "%"]`. A symbol without a match gives no row.
- **The request** (`SheetUpdate`): the five settings are looked up from the
  loaded spreadsheet information; a missing key ends the run. The body then
  holds the timestamp entry `{range: update-time range, values: [[ts]]}`
  first and the price entry `{range: write range, values: rows}` second,
  under the configured value-input option.

Data: `Ticker.TickerEntry` (four strings), `Ticker.Row`, `SymbolGrid.Grid`,
`SheetUpdate.ValueRange`, `SheetUpdate.BatchUpdateBody`,
`SheetUpdate.SpreadsheetConfig`; `Results.Option` and `Results.Result` carry
absence and errors. The prices, market caps and percentages stay strings
throughout, as they do in the program.

The inputs the program gets from outside become parameters:
- the timestamp string, which the program takes from `datetime.now()`;
- the read response's `values`, as `Option<Grid>`, where `None` means the key was absent;
- the ticker snapshot, as an ordered `seq<TickerEntry>`;
- the loaded spreadsheet information, as a `map<string, string>`.

Two consequences of the code that the model keeps:
- A symbol with no match adds no row, so the row list can be shorter than the symbol list.
- The snapshot is an ordered list, and the first entry with a symbol wins.

## Model

| member | source | states |
|---|---|---|
| Ticker.PriceRow | spreadsheet_update.py:138 | the row has three cells: price, market cap, and the 24-hour change followed by a percent sign that `StripPercent` removes again |
| Ticker.PriceRowDeterminesQuote | spreadsheet_update.py:138 | two entries give equal rows exactly when their price, market cap and 24-hour change agree |
| SymbolGrid.Flatten | spreadsheet_update.py:110 | the flattened list has as many symbols as the grid has cells, summed over its rows |
| SymbolGrid.ReadSymbols | spreadsheet_update.py:109-110 | a response without `values` gives no symbols; otherwise one symbol per cell of the grid |
| SymbolGrid.FlattenAppend | spreadsheet_update.py:110 | flattening rows `a` then `b` is flattening `a` followed by flattening `b` |
| SymbolGrid.FlattenIsRowMajor | spreadsheet_update.py:110 | cell `j` of row `i` is at position (cells in rows before `i`) + `j`: the list is the row-major concatenation |
| SymbolGrid.FlattenRows | spreadsheet_update.py:110 | the nested comprehension, cell by cell, yields exactly the row-major concatenation |
| PriceResolver.FirstMatchIndex | spreadsheet_update.py:136-139 | the scan stops at the earliest entry with the symbol; it finds none exactly when no entry has the symbol |
| PriceResolver.RowsFor | spreadsheet_update.py:135-139 | a symbol adds one row when some entry has it, none otherwise, and the row comes from the earliest such entry |
| PriceResolver.RowsForUnfold | spreadsheet_update.py:136-139 | one scan step: a matching head entry gives its row, otherwise the rest of the list decides |
| PriceResolver.ResolveRows | spreadsheet_update.py:130-139 | never more rows than symbols |
| PriceResolver.FilterSnapshot | spreadsheet_update.py:134 | the filtered snapshot is no longer than the original |
| PriceResolver.FilterKeepsReadSymbols | spreadsheet_update.py:134 | every kept entry comes from the snapshot and has a read symbol; a snapshot entry is kept exactly when its symbol was read |
| PriceResolver.GetPricesFromCmc | spreadsheet_update.py:120-142 | scanning the filtered snapshot gives the same rows as scanning the whole snapshot, and no more rows than symbols |
| PriceResolver.ResolveRowsAppend | spreadsheet_update.py:135-139 | resolving two symbol lists one after the other gives the concatenation of their rows |
| PriceResolver.OneSymbolOneRow | spreadsheet_update.py:135-139 | one more symbol appends exactly its own rows (one if listed, zero if not) after the rows so far |
| PriceResolver.FilterKeepsFirstMatch | spreadsheet_update.py:134-139 | for a read symbol, the filtered snapshot yields the same first match as the full snapshot |
| PriceResolver.FilteredScanAgrees | spreadsheet_update.py:132-139 | any list of read symbols resolves the same against the filtered and the full snapshot |
| PriceResolver.FilterIsOnlyAnOptimisation | spreadsheet_update.py:132-139 | filtering the snapshot before the scan does not change the resolved rows |
| PriceResolver.MatchedExactlyListed | spreadsheet_update.py:135-139 | a symbol position gets a row exactly when the snapshot lists that symbol |
| PriceResolver.MatchedAscending | spreadsheet_update.py:135-139 | the positions of the symbols that get rows strictly ascend, so rows keep the symbols' input order |
| PriceResolver.ResolveCountsMatches | spreadsheet_update.py:135-139 | the number of rows is the number of symbols the snapshot lists, counting repeats |
| PriceResolver.RowsOfMatchedSymbols | spreadsheet_update.py:135-139 | the `k`-th row is the row of the `k`-th symbol that the snapshot lists |
| PriceResolver.RowOfListedSymbol | spreadsheet_update.py:135-139 | a symbol the snapshot lists, at any input position, gets its own row at that position's matched index |
| PriceResolver.PositionOrderIsRowOrder | spreadsheet_update.py:135-139 | of two matched symbols, the one read earlier has the earlier row |
| PriceResolver.RepeatedSymbolRepeatsRow | spreadsheet_update.py:135-139 | a listed symbol read twice yields two equal rows, each the row that symbol gets |
| PriceResolver.ScanForSymbol | spreadsheet_update.py:136-139 | the inner loop with its `break` returns exactly the rows the symbol adds |
| PriceResolver.ResolvePrices | spreadsheet_update.py:130-142 | the filter followed by the double loop returns the rows of scanning the whole snapshot |
| SheetUpdate.ReadConfig | spreadsheet_update.py:157-162 | the settings are read exactly when all five keys are present; otherwise the error names the first missing key in lookup order |
| SheetUpdate.TimeUpdateData | spreadsheet_update.py:79-92 | one entry: the update-time range holding a single cell with the timestamp |
| SheetUpdate.AppendCryptoPrices | spreadsheet_update.py:94-118 | the entries already given are kept and one price entry for the write range follows; its rows are the resolved rows of the flattened read grid |
| SheetUpdate.BuildBody | spreadsheet_update.py:164-170 | exactly two entries: the timestamp entry, then the price entry with the resolved rows; the value-input option is the configured one |
| SheetUpdate.UpdateRequest | spreadsheet_update.py:157-170 | fails exactly when a setting is missing, naming the first missing key in lookup order; otherwise the two-entry body built from the settings |
| SheetUpdate.ScenarioRows | spreadsheet_update.py:130-139 | BTC and ETH quoted, FAKE not: two rows in input order, with the percent sign on the change |
| SheetUpdate.UnknownSymbolYieldsNothing | spreadsheet_update.py:135-139 | a symbol the snapshot lacks yields an empty row list, not an error, even for an empty snapshot |

## Left out

- Credentials and the OAuth flow (`get_credentials`): file and network I/O through the OAuth client library.
- Locating and parsing the settings file (`get_script_path`, `get_spreadsheet_information`): filesystem and YAML I/O. The model starts from the parsed mapping. This leaves out the exit with status 0 on a parse error. It also leaves out a latent defect: when the file is missing, the function returns a name that was never bound.
- The spreadsheet read, the batch-update call, and the construction of the service client: network calls. The read result is a parameter. The updated-cell count that the call returns is not modelled. The spreadsheet id and the symbol range address only these calls, so the model reads them from the settings but does not use them further.
- The ticker query: a network call. The snapshot is a parameter.
- The clock and the rendering of the current time: the timestamp is an opaque string parameter.
- The debug flag and every debug print: console output with no effect on the results.
- Numeric meaning of the price, market-cap and percent strings: the program never parses them.
- Malformed snapshot records. The filter reads `symbol` of every record (spreadsheet_update.py:134), so a record without it always raises. The other three fields are read only from the first filtered entry that matches a read symbol (lines 136-139). A malformed record that is never matched therefore does not raise. A matched price or market cap that is not a string is written as it is. Only a matched 24-hour change that is not a string raises, at the `+ '%'`. Every `TickerEntry` has four string fields, so the model cannot represent snapshots that hold such records, even the harmless ones.
- Settings values that are not strings: the parsed mapping is modelled as `map<string, string>`.
- Purity of the resolution (same inputs, same rows) is not stated as a lemma. The model's functions are pure, and each method's ensures fixes its result to a function of its inputs.
