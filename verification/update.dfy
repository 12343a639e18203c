/** The update request: the settings looked up from the loaded spreadsheet
    information, and the two-entry batch-update body built from the
    timestamp, the read symbols and the ticker snapshot. */
module SheetUpdate {
  import opened Results
  import opened Ticker
  import opened SymbolGrid
  import opened PriceResolver

  /** One `{range, values}` entry of a batch update. */
  datatype ValueRange = ValueRange(range: string, values: seq<Row>)

  /** The body of the batch-update call. */
  datatype BatchUpdateBody = BatchUpdateBody(valueInputOption: string, data: seq<ValueRange>)

  /** The five settings the program reads from its spreadsheet information. */
  datatype SpreadsheetConfig = SpreadsheetConfig(
    spreadsheetId: string,
    updateTimeRangeName: string,
    cryptoTickerRangeName: string,
    toWriteRangeName: string,
    valueInputOption: string)

  /** The setting names, in the order the program looks them up. */
  const ConfigKeys: seq<string> := [
    "spreadsheet_id", "update_time_range_name", "crypto_ticker_range_name",
    "to_write_range_name", "value_input_option"]

  /** Position of the first of `keys` that `info` lacks, if any. */
  function FirstMissing(keys: seq<string>, info: map<string, string>): (r: Option<nat>)
    ensures r.None? <==> forall k :: 0 <= k < |keys| ==> keys[k] in info
    ensures r.Some? ==>
      && r.value < |keys| && keys[r.value] !in info
      && forall m :: 0 <= m < r.value ==> keys[m] in info
    decreases |keys|
  {
    if |keys| == 0 then None
    else if keys[0] !in info then Some(0)
    else
      match FirstMissing(keys[1..], info)
      case None =>
        assert forall k :: 1 <= k < |keys| ==> keys[k] == keys[1..][k - 1];
        None
      case Some(k) => Some(k + 1)
  }

  /** All five settings are present in the loaded mapping. */
  predicate HasAllSettings(info: map<string, string>)
  {
    && "spreadsheet_id" in info
    && "update_time_range_name" in info
    && "crypto_ticker_range_name" in info
    && "to_write_range_name" in info
    && "value_input_option" in info
  }

  /** The settings from the loaded mapping. The lookups run in the order of
      `ConfigKeys` and the first missing key stops the program; that key is
      the error. */
  function ReadConfig(info: map<string, string>): (r: Result<SpreadsheetConfig, string>)
    ensures r.Ok? <==> HasAllSettings(info)
    ensures r.Ok? ==> r.value == SpreadsheetConfig(
      info["spreadsheet_id"], info["update_time_range_name"], info["crypto_ticker_range_name"],
      info["to_write_range_name"], info["value_input_option"])
    ensures r.Err? ==> exists k ::
      (0 <= k < |ConfigKeys| && r.error == ConfigKeys[k] && ConfigKeys[k] !in info
       && forall m :: 0 <= m < k ==> ConfigKeys[m] in info)
  {
    assert |ConfigKeys| == 5;
    assert ConfigKeys[0] == "spreadsheet_id" && ConfigKeys[1] == "update_time_range_name";
    assert ConfigKeys[2] == "crypto_ticker_range_name" && ConfigKeys[3] == "to_write_range_name";
    assert ConfigKeys[4] == "value_input_option";
    match FirstMissing(ConfigKeys, info)
    case Some(k) => Err(ConfigKeys[k])
    case None =>
      assert ConfigKeys[0] in info && ConfigKeys[1] in info && ConfigKeys[2] in info;
      assert ConfigKeys[3] in info && ConfigKeys[4] in info;
      Ok(SpreadsheetConfig(
        info["spreadsheet_id"], info["update_time_range_name"], info["crypto_ticker_range_name"],
        info["to_write_range_name"], info["value_input_option"]))
  }

  /** The update-time data: a one-entry list writing the timestamp into a
      single cell of the update-time range. */
  function TimeUpdateData(updateTimeRangeName: string, timestamp: string): (data: seq<ValueRange>)
    ensures |data| == 1 && data[0].range == updateTimeRangeName
    ensures |data[0].values| == 1 && data[0].values[0] == [timestamp]
  {
    [ValueRange(updateTimeRangeName, [[timestamp]])]
  }

  /** Appends the price entry to `data`: the read grid flattened into
      symbols, priced against the snapshot, aimed at the write range. The
      entries already in `data` are kept as they are. */
  function AppendCryptoPrices(data: seq<ValueRange>, toWriteRangeName: string,
                              read: Option<Grid>, snapshot: seq<TickerEntry>): (r: seq<ValueRange>)
    ensures |r| == |data| + 1 && r[..|data|] == data
    ensures r[|data|].range == toWriteRangeName
    ensures r[|data|].values == ResolveRows(ReadSymbols(read), snapshot)
    ensures |r[|data|].values| <= |ReadSymbols(read)|
  {
    data + [ValueRange(toWriteRangeName, GetPricesFromCmc(ReadSymbols(read), snapshot))]
  }

  /** The body `main` sends: the timestamp entry first, then the price
      entry, under the configured value-input option. */
  function BuildBody(config: SpreadsheetConfig, timestamp: string,
                     read: Option<Grid>, snapshot: seq<TickerEntry>): (body: BatchUpdateBody)
    ensures body.valueInputOption == config.valueInputOption
    ensures |body.data| == 2
    ensures body.data[0] == ValueRange(config.updateTimeRangeName, [[timestamp]])
    ensures body.data[1].range == config.toWriteRangeName
    ensures body.data[1].values == ResolveRows(ReadSymbols(read), snapshot)
  {
    var data := TimeUpdateData(config.updateTimeRangeName, timestamp);
    var data' := AppendCryptoPrices(data, config.toWriteRangeName, read, snapshot);
    BatchUpdateBody(config.valueInputOption, data')
  }

  /** One run from the loaded settings to the request body; the timestamp,
      the read response and the snapshot are its inputs. A missing setting
      ends the run before any body exists. */
  function UpdateRequest(info: map<string, string>, timestamp: string,
                         read: Option<Grid>, snapshot: seq<TickerEntry>): (r: Result<BatchUpdateBody, string>)
    ensures r.Err? <==> ReadConfig(info).Err?
    ensures r.Err? ==> r.error in ConfigKeys && r.error !in info
    ensures r.Err? ==> exists k ::
      (0 <= k < |ConfigKeys| && r.error == ConfigKeys[k] && ConfigKeys[k] !in info
       && forall m :: 0 <= m < k ==> ConfigKeys[m] in info)
    ensures r.Ok? ==> HasAllSettings(info)
    ensures r.Ok? ==>
      && |r.value.data| == 2
      && r.value.valueInputOption == info["value_input_option"]
      && r.value.data[0] == ValueRange(info["update_time_range_name"], [[timestamp]])
      && r.value.data[1].range == info["to_write_range_name"]
      && r.value.data[1].values == ResolveRows(ReadSymbols(read), snapshot)
  {
    match ReadConfig(info)
    case Err(key) => Err(key)
    case Ok(config) => Ok(BuildBody(config, timestamp, read, snapshot))
  }

  /** The quotes of the three-symbol scenario below. */
  const ScenarioSnapshot: seq<TickerEntry> := [
    TickerEntry("BTC", "9000", "1.6e11", "2.1"),
    TickerEntry("ETH", "300", "3.3e10", "-1.4")]

  /** Three symbols resolved against two quotes: the unknown one is dropped,
      the others keep their order and get the percent sign. */
  lemma ScenarioRows()
    ensures ResolveRows(["BTC", "ETH", "FAKE"], ScenarioSnapshot)
      == [["9000", "1.6e11", "2.1%"], ["300", "3.3e10", "-1.4%"]]
  {
    var snap := ScenarioSnapshot;
    var symbols := ["BTC", "ETH", "FAKE"];
    assert PriceRow(snap[0]) == ["9000", "1.6e11", "2.1%"] by {
      assert "2.1" + PercentSuffix == "2.1%";
    }
    assert PriceRow(snap[1]) == ["300", "3.3e10", "-1.4%"] by {
      assert "-1.4" + PercentSuffix == "-1.4%";
    }
    assert RowsFor("BTC", snap) == [PriceRow(snap[0])];
    assert RowsFor("ETH", snap) == [PriceRow(snap[1])] by {
      assert "BTC"[0] != "ETH"[0];
      assert snap[1..] == [snap[1]];
      assert FirstMatchIndex("ETH", snap[1..]) == Some(0);
    }
    assert RowsFor("FAKE", snap) == [] by {
      assert snap[0].symbol[0] != "FAKE"[0] && snap[1].symbol[0] != "FAKE"[0];
    }
    assert symbols[1..] == ["ETH", "FAKE"] && symbols[2..] == ["FAKE"];
    assert ResolveRows(["FAKE"], snap) == [] by {
      assert ["FAKE"][1..] == [];
    }
    assert ResolveRows(["ETH", "FAKE"], snap) == [PriceRow(snap[1])] by {
      assert ["ETH", "FAKE"][1..] == ["FAKE"];
    }
  }

  /** A symbol the snapshot does not quote yields no row rather than an
      error, even when the snapshot is empty. */
  lemma UnknownSymbolYieldsNothing(s: string, snapshot: seq<TickerEntry>)
    requires forall k :: 0 <= k < |snapshot| ==> snapshot[k].symbol != s
    ensures GetPricesFromCmc([s], snapshot) == []
  {
  }
}
