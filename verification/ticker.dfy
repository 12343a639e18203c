/** The market-data side of the update: one snapshot record per asset and
    the three-cell row that is written back to the sheet for it. */
module Ticker {
  import opened Results

  /** One record of the ticker snapshot. The provider sends every number as
      a decimal string and the program never parses them, so neither do we. */
  datatype TickerEntry = TickerEntry(
    symbol: string,
    priceUsd: string,
    marketCapUsd: string,
    percentChange24h: string)

  /** One row of cells in a value range. */
  type Row = seq<string>

  /** Appended to the 24-hour change so that the spreadsheet formats the
      cell as a percentage. */
  const PercentSuffix: string := "%"

  /** Removes a trailing percent sign from a cell; `None` when the cell does
      not end in one. This is the inverse of the formatting in `PriceRow`. */
  function StripPercent(cell: string): (r: Option<string>)
    ensures r.Some? <==> |cell| > 0 && cell[|cell| - 1] == '%'
    ensures r.Some? ==> r.value + PercentSuffix == cell
  {
    if |cell| > 0 && cell[|cell| - 1] == '%' then Some(cell[..|cell| - 1]) else None
  }

  /** The row written for a matched entry: price, market capitalisation and
      24-hour change with the percent sign. */
  function PriceRow(e: TickerEntry): (r: Row)
    ensures |r| == 3
    ensures r[0] == e.priceUsd && r[1] == e.marketCapUsd
    ensures StripPercent(r[2]) == Some(e.percentChange24h)
  {
    [e.priceUsd, e.marketCapUsd, e.percentChange24h + PercentSuffix]
  }

  /** Two entries give the same row exactly when they agree on the three
      quoted fields: the row loses nothing but the symbol. */
  lemma PriceRowDeterminesQuote(a: TickerEntry, b: TickerEntry)
    ensures PriceRow(a) == PriceRow(b) <==>
      a.priceUsd == b.priceUsd && a.marketCapUsd == b.marketCapUsd
      && a.percentChange24h == b.percentChange24h
  {
  }
}
