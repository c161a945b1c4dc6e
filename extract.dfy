/** What the loader reads out of one parsed feed document: the sections looked up before
    any statement runs, and the parameters of every INSERT, table by table, in the order
    the loader issues them. */
module Extract {
  import opened Results
  import opened Json
  import opened Coerce
  import opened Tables
  import Shareholding

  /** The sections the loader binds before its first INSERT, in the order it subscripts
      them. The board-meeting section is read under the key `borad_meeting`, spelled so in
      the loader; a document that uses the correct spelling fails here. */
  const InfoPath: seq<string> := ["equityDetails", "info"]

  const SectionPaths: seq<seq<string>> := [
    InfoPath,
    ["equityDetails", "metadata"],
    ["equityDetails", "priceInfo"],
    ["equityDetails", "industryInfo"],
    ["tradeInfo"],
    ["tradeInfo", "marketDeptOrderBook"],
    ["tradeInfo", "securityWiseDP"],
    ["corporateInfo", "corporate_actions", "data"],
    ["corporateInfo", "shareholdings_patterns", "data"],
    ["corporateInfo", "financial_results", "data"],
    ["corporateInfo", "borad_meeting", "data"],
    InfoPath + ["symbol"]
  ]

  datatype Sections = Sections(
    info: Value,
    metadata: Value,
    priceInfo: Value,
    industryInfo: Value,
    tradeInfo: Value,
    orderBook: Value,
    securityWiseDp: Value,
    corporateActions: Value,
    shareholdings: Value,
    financialResults: Value,
    boardMeetings: Value,
    symbol: Value)

  /** The sections in the order of `SectionPaths`. */
  function Fields(x: Sections): seq<Value> {
    [x.info, x.metadata, x.priceInfo, x.industryInfo, x.tradeInfo, x.orderBook, x.securityWiseDp,
     x.corporateActions, x.shareholdings, x.financialResults, x.boardMeetings, x.symbol]
  }

  function Assemble(vs: Outcome<seq<Value>>): (r: Outcome<Sections>)
    requires vs.Ok? ==> |vs.value| == 12
    ensures r.Ok? <==> vs.Ok?
    ensures r.Ok? ==> Fields(r.value) == vs.value
  {
    var v :- vs;
    Ok(Sections(v[0], v[1], v[2], v[3], v[4], v[5], v[6], v[7], v[8], v[9], v[10], v[11]))
  }

  /** Binds the sections. */
  function ExtractSections(doc: Value): Outcome<Sections> {
    Assemble(Paths(doc, SectionPaths))
  }

  /** Binding fails, before anything is written, exactly when one of the paths is missing
      or runs through something that is not a dict; otherwise each section is the value
      at its path. */
  lemma ExtractSectionsSpec(doc: Value)
    ensures ExtractSections(doc).Ok? <==> forall i :: 0 <= i < |SectionPaths| ==> Path(doc, SectionPaths[i]).Ok?
    ensures ExtractSections(doc).Ok? ==>
              && |Fields(ExtractSections(doc).value)| == |SectionPaths|
              && forall i :: 0 <= i < |SectionPaths| ==> Path(doc, SectionPaths[i]) == Ok(Fields(ExtractSections(doc).value)[i])
  {
  }

  /** The file's symbol is the `symbol` entry of the info section. */
  lemma SymbolIsInfoSymbol(doc: Value)
    requires ExtractSections(doc).Ok?
    ensures Get(ExtractSections(doc).value.info, "symbol") == Ok(ExtractSections(doc).value.symbol)
  {
    ExtractSectionsSpec(doc);
    var x := ExtractSections(doc).value;
    assert Path(doc, SectionPaths[0]) == Ok(x.info);
    assert Path(doc, SectionPaths[11]) == Ok(x.symbol);
    InfoSymbolPath(doc, SectionPaths[0], SectionPaths[11]);
  }

  lemma InfoSymbolPath(doc: Value, info: seq<string>, symbol: seq<string>)
    requires Path(doc, info).Ok? && symbol == info + ["symbol"]
    ensures Path(doc, symbol) == Get(Path(doc, info).value, "symbol")
  {
    PathSnoc(doc, info, "symbol");
  }

  lemma {:induction false} PathSnoc(v: Value, p: seq<string>, k: string)
    requires Path(v, p).Ok?
    ensures Path(v, p + [k]) == Get(Path(v, p).value, k)
    decreases |p|
  {
    if p != [] {
      assert (p + [k])[1..] == p[1..] + [k];
      PathSnoc(Get(v, p[0]).value, p[1..], k);
    }
  }

  /** `s` is a row of table `t` with one value per column of `Columns(t)`. */
  predicate RowOf(s: Insert, t: Table) {
    s.table == t && |s.cells| == Width(t)
  }

  /** A row of `t` binds one parameter to each column the table is created with. */
  lemma RowOfColumns(s: Insert, t: Table)
    requires RowOf(s, t)
    ensures |s.cells| == |Columns(t)|
  {
  }

  /** How a parameter is derived from the value the loader reads. */
  datatype Cast =
    | AsIs      // bound as it is
    | NaNull    // `v if v != 'NA' else None`
    | NaFloat   // `float(v) if v != 'NA' else None`
    | SafeStr   // `safe_string(v)`
    | SafeNum   // `safe_numeric(v)`
    | SafeDay   // `safe_date(v)`

  function Convert(c: Cast, v: Value, parse: string -> Option<real>): (r: Outcome<Value>)
    ensures c == AsIs ==> r == Ok(v)
    ensures c == NaNull ==> r == Ok(NaToNull(v))
    ensures c == NaFloat ==> r == NaOrFloat(v, parse)
    ensures c == SafeStr ==> r == Ok(SafeString(v))
    ensures c == SafeNum ==> r == SafeNumeric(v, parse)
    ensures c == SafeDay ==> r == SafeDate(v)
  {
    match c
    case AsIs => Ok(v)
    case NaNull => Ok(NaToNull(v))
    case NaFloat => NaOrFloat(v, parse)
    case SafeStr => Ok(SafeString(v))
    case SafeNum => SafeNumeric(v, parse)
    case SafeDay => SafeDate(v)
  }

  /** One bound parameter: the value at `path` in the section, derived by `cast`. */
  datatype Column = Column(path: seq<string>, cast: Cast)

  function Cell(v: Value, c: Column, parse: string -> Option<real>): (r: Outcome<Value>)
    ensures r.Ok? <==> Path(v, c.path).Ok? && Convert(c.cast, Path(v, c.path).value, parse).Ok?
    ensures r.Ok? ==> Convert(c.cast, Path(v, c.path).value, parse) == r
  {
    var raw :- Path(v, c.path);
    Convert(c.cast, raw, parse)
  }

  /** `cells` are the columns of `cols`, each read from `v`. */
  predicate CellsOf(cells: seq<Value>, v: Value, cols: seq<Column>, parse: string -> Option<real>) {
    |cells| == |cols| && forall i :: 0 <= i < |cols| ==> Cell(v, cols[i], parse) == Ok(cells[i])
  }

  /** One INSERT whose symbol is `symbol` and whose other parameters are the columns of
      `cols`, each read from `v`; it fails when any of them fails. */
  function Row(t: Table, symbol: Outcome<Value>, v: Value, cols: seq<Column>, parse: string -> Option<real>): (r: Outcome<Insert>)
    ensures r.Ok? <==> symbol.Ok? && forall i :: 0 <= i < |cols| ==> Cell(v, cols[i], parse).Ok?
    ensures r.Ok? ==> && r.value.table == t && symbol == Ok(r.value.symbol) && |r.value.cells| == |cols|
                      && CellsOf(r.value.cells, v, cols, parse)
  {
    var s :- symbol;
    var vs :- MapAll(cols, (c: Column) => Cell(v, c, parse));
    Ok(Insert(t, s, vs))
  }

  /** Columns read as they are, one per path. */
  function Plain(paths: seq<seq<string>>): (r: seq<Column>)
    ensures |r| == |paths| && forall i :: 0 <= i < |paths| ==> r[i] == Column(paths[i], AsIs)
  {
    seq(|paths|, i requires 0 <= i < |paths| => Column(paths[i], AsIs))
  }

  /** Plain columns hold the values at their paths. */
  lemma PlainCells(cells: seq<Value>, v: Value, cols: seq<Column>, parse: string -> Option<real>)
    requires CellsOf(cells, v, cols, parse)
    requires forall i :: 0 <= i < |cols| ==> cols[i].cast == AsIs
    ensures forall i :: 0 <= i < |cols| ==> Path(v, cols[i].path) == Ok(cells[i])
  {
    forall i | 0 <= i < |cols| ensures Path(v, cols[i].path) == Ok(cells[i]) {
      assert Cell(v, cols[i], parse) == Ok(cells[i]);
    }
  }

  /** A plain column can be bound exactly when its path is present. */
  lemma PlainPresent(v: Value, cols: seq<Column>, parse: string -> Option<real>)
    requires forall i :: 0 <= i < |cols| ==> cols[i].cast == AsIs
    ensures forall i :: 0 <= i < |cols| ==> (Cell(v, cols[i], parse).Ok? <==> Path(v, cols[i].path).Ok?)
  {
  }

  /** One INSERT whose parameters after `symbol` are the values at `paths`, bound as they
      are; it fails when the symbol or any of the paths is missing. */
  function PlainRow(t: Table, symbol: Outcome<Value>, v: Value, paths: seq<seq<string>>): (r: Outcome<Insert>)
    ensures r.Ok? <==> symbol.Ok? && forall i :: 0 <= i < |paths| ==> Path(v, paths[i]).Ok?
    ensures r.Ok? ==> && r.value.table == t && symbol == Ok(r.value.symbol) && |r.value.cells| == |paths|
                      && forall i :: 0 <= i < |paths| ==> Path(v, paths[i]) == Ok(r.value.cells[i])
  {
    var cols := Plain(paths);
    PlainPresent(v, cols, Unparsed);
    var r := Row(t, symbol, v, cols, Unparsed);
    assert r.Ok? ==> forall i :: 0 <= i < |paths| ==> Path(v, paths[i]) == Ok(r.value.cells[i]) by {
      if r.Ok? { PlainCells(r.value.cells, v, cols, Unparsed); }
    }
    r
  }

  /** Each column of `cols` is present in `v`, and NULL exactly where `v` holds a
      placeholder. */
  predicate NullWhereSentinel(cells: seq<Value>, v: Value, cols: seq<Column>) {
    |cells| == |cols| &&
    forall i :: 0 <= i < |cols| ==> Path(v, cols[i].path).Ok? && (cells[i] == Null <==> IsSentinel(Path(v, cols[i].path).value))
  }

  /** Columns read through the `safe_*` helpers are NULL exactly where the feed has a
      placeholder. */
  lemma SafeCells(cells: seq<Value>, v: Value, cols: seq<Column>, parse: string -> Option<real>)
    requires CellsOf(cells, v, cols, parse)
    requires forall i :: 0 <= i < |cols| ==> cols[i].cast in {SafeNum, SafeStr, SafeDay}
    ensures NullWhereSentinel(cells, v, cols)
  {
    forall i | 0 <= i < |cols|
      ensures Path(v, cols[i].path).Ok? && (cells[i] == Null <==> IsSentinel(Path(v, cols[i].path).value))
    {
      assert Cell(v, cols[i], parse) == Ok(cells[i]);
    }
  }

  /** A column written `float(v) if v != 'NA' else None` is NULL exactly when the feed
      says 'NA', and the number the feed gives otherwise. */
  lemma NaFloatCell(cells: seq<Value>, v: Value, cols: seq<Column>, parse: string -> Option<real>, i: int)
    requires CellsOf(cells, v, cols, parse) && 0 <= i < |cols| && cols[i].cast == NaFloat
    ensures Path(v, cols[i].path).Ok?
    ensures cells[i] == Null <==> Path(v, cols[i].path).value == Str("NA")
    ensures Path(v, cols[i].path).value != Str("NA") ==> cells[i] == Number(Float(Path(v, cols[i].path).value, parse).value)
  {
    assert Cell(v, cols[i], parse) == Ok(cells[i]);
  }

  /** A column written `v if v != 'NA' else None` is NULL exactly when the feed says 'NA'
      or null, and the feed's value otherwise. */
  lemma NaNullCell(cells: seq<Value>, v: Value, cols: seq<Column>, parse: string -> Option<real>, i: int)
    requires CellsOf(cells, v, cols, parse) && 0 <= i < |cols| && cols[i].cast == NaNull
    ensures Path(v, cols[i].path).Ok?
    ensures cells[i] == Null <==> Path(v, cols[i].path).value in {Str("NA"), Null}
    ensures Path(v, cols[i].path).value != Str("NA") ==> cells[i] == Path(v, cols[i].path).value
  {
    assert Cell(v, cols[i], parse) == Ok(cells[i]);
  }

  const InfoPaths: seq<seq<string>> := [["companyName"], ["industry"], ["isin"], ["isin"]]

  /** equity_info: the info section's values as they are, with `isin` bound twice, so
      that `slb_isin` always equals `isin`. */
  function InfoRow(x: Sections): (r: Outcome<Insert>)
    ensures r.Ok? <==> Get(x.info, "symbol").Ok? && forall i :: 0 <= i < |InfoPaths| ==> Path(x.info, InfoPaths[i]).Ok?
    ensures r.Ok? ==> && RowOf(r.value, EquityInfo)
                      && Get(x.info, "symbol") == Ok(r.value.symbol)
                      && forall i :: 0 <= i < |InfoPaths| ==> Path(x.info, InfoPaths[i]) == Ok(r.value.cells[i])
    ensures r.Ok? ==> r.value.cells[3] == r.value.cells[2]
  {
    PlainRow(EquityInfo, Get(x.info, "symbol"), x.info, InfoPaths)
  }

  const MetadataColumns: seq<Column> := [
    Column(["series"], AsIs), Column(["isin"], AsIs), Column(["status"], AsIs),
    Column(["listingDate"], NaNull), Column(["industry"], AsIs), Column(["lastUpdateTime"], NaNull),
    Column(["pdSectorPe"], NaFloat), Column(["pdSymbolPe"], NaFloat), Column(["pdSectorInd"], NaNull)
  ]

  /** equity_metadata: the row's symbol is the metadata section's own `symbol`; the two
      dates and `pdSectorInd` become NULL when they are 'NA', and the two P/E ratios are
      converted with `float` unless they are 'NA'. */
  function MetadataRow(x: Sections, parse: string -> Option<real>): (r: Outcome<Insert>)
    ensures r.Ok? <==> Get(x.metadata, "symbol").Ok? && forall i :: 0 <= i < |MetadataColumns| ==> Cell(x.metadata, MetadataColumns[i], parse).Ok?
    ensures r.Ok? ==> && RowOf(r.value, EquityMetadata)
                      && Get(x.metadata, "symbol") == Ok(r.value.symbol)
                      && CellsOf(r.value.cells, x.metadata, MetadataColumns, parse)
  {
    assert |MetadataColumns| == Width(EquityMetadata);
    Row(EquityMetadata, Get(x.metadata, "symbol"), x.metadata, MetadataColumns, parse)
  }

  /** The converted metadata columns by name: the two P/E ratios go through
      `float(v) if v != 'NA' else None` (so each is NULL exactly when the feed says 'NA'),
      and the two dates and `pdSectorInd` through `v if v != 'NA' else None`. */
  lemma MetadataConversions(x: Sections, parse: string -> Option<real>)
    requires MetadataRow(x, parse).Ok?
    ensures Get(x.metadata, "listingDate").Ok? && Get(x.metadata, "lastUpdateTime").Ok?
    ensures Get(x.metadata, "pdSectorPe").Ok? && Get(x.metadata, "pdSymbolPe").Ok?
    ensures Get(x.metadata, "pdSectorInd").Ok?
    ensures var cells := MetadataRow(x, parse).value.cells;
            && cells[3] == NaToNull(Get(x.metadata, "listingDate").value)
            && cells[5] == NaToNull(Get(x.metadata, "lastUpdateTime").value)
            && NaOrFloat(Get(x.metadata, "pdSectorPe").value, parse) == Ok(cells[6])
            && NaOrFloat(Get(x.metadata, "pdSymbolPe").value, parse) == Ok(cells[7])
            && cells[8] == NaToNull(Get(x.metadata, "pdSectorInd").value)
  {
    var cells := MetadataRow(x, parse).value.cells;
    assert Cell(x.metadata, MetadataColumns[3], parse) == Ok(cells[3]);
    assert Cell(x.metadata, MetadataColumns[5], parse) == Ok(cells[5]);
    assert Cell(x.metadata, MetadataColumns[6], parse) == Ok(cells[6]);
    assert Cell(x.metadata, MetadataColumns[7], parse) == Ok(cells[7]);
    assert Cell(x.metadata, MetadataColumns[8], parse) == Ok(cells[8]);
  }

  const PricePaths: seq<seq<string>> := [
    ["lastPrice"], ["change"], ["pChange"], ["previousClose"], ["open"], ["close"], ["vwap"],
    ["stockIndClosePrice"], ["lowerCP"], ["upperCP"], ["pPriceBand"], ["basePrice"],
    ["intraDayHighLow", "min"], ["intraDayHighLow", "max"], ["intraDayHighLow", "value"],
    ["weekHighLow", "min"], ["weekHighLow", "minDate"], ["weekHighLow", "max"],
    ["weekHighLow", "maxDate"], ["weekHighLow", "value"], ["iNavValue"], ["checkINAV"], ["tickSize"]
  ]

  /** equity_price_info: the info section's symbol and the price values as they are. */
  function PriceRow(x: Sections): (r: Outcome<Insert>)
    ensures r.Ok? <==> Get(x.info, "symbol").Ok? && forall i :: 0 <= i < |PricePaths| ==> Path(x.priceInfo, PricePaths[i]).Ok?
    ensures r.Ok? ==> && RowOf(r.value, EquityPriceInfo)
                      && Get(x.info, "symbol") == Ok(r.value.symbol)
                      && forall i :: 0 <= i < |PricePaths| ==> Path(x.priceInfo, PricePaths[i]) == Ok(r.value.cells[i])
  {
    PlainRow(EquityPriceInfo, Get(x.info, "symbol"), x.priceInfo, PricePaths)
  }

  const IndustryPaths: seq<seq<string>> := [["macro"], ["sector"], ["industry"], ["basicIndustry"]]

  /** equity_industry_info: the info section's symbol and the classification as it is. */
  function IndustryRow(x: Sections): (r: Outcome<Insert>)
    ensures r.Ok? <==> Get(x.info, "symbol").Ok? && forall i :: 0 <= i < |IndustryPaths| ==> Path(x.industryInfo, IndustryPaths[i]).Ok?
    ensures r.Ok? ==> && RowOf(r.value, EquityIndustryInfo)
                      && Get(x.info, "symbol") == Ok(r.value.symbol)
                      && forall i :: 0 <= i < |IndustryPaths| ==> Path(x.industryInfo, IndustryPaths[i]) == Ok(r.value.cells[i])
  {
    PlainRow(EquityIndustryInfo, Get(x.info, "symbol"), x.industryInfo, IndustryPaths)
  }

  const OrderBookPaths: seq<seq<string>> := [
    ["totalBuyQuantity"], ["totalSellQuantity"],
    ["tradeInfo", "totalTradedVolume"], ["tradeInfo", "totalTradedValue"],
    ["tradeInfo", "totalMarketCap"], ["tradeInfo", "ffmc"], ["tradeInfo", "impactCost"],
    ["tradeInfo", "cmDailyVolatility"], ["tradeInfo", "cmAnnualVolatility"],
    ["tradeInfo", "marketLot"], ["tradeInfo", "activeSeries"],
    ["valueAtRisk", "securityVar"], ["valueAtRisk", "indexVar"], ["valueAtRisk", "varMargin"],
    ["valueAtRisk", "extremeLossMargin"], ["valueAtRisk", "adhocMargin"],
    ["valueAtRisk", "applicableMargin"]
  ]

  /** `[block_deal['name'] for block_deal in trade['bulkBlockDeals']]`. */
  function DealNames(trade: Value): (r: Outcome<seq<Value>>)
    ensures r.Ok? <==> && Get(trade, "bulkBlockDeals").Ok?
                       && Iterate(Get(trade, "bulkBlockDeals").value).Ok?
                       && var ds := Iterate(Get(trade, "bulkBlockDeals").value).value;
                          forall i :: 0 <= i < |ds| ==> Get(ds[i], "name").Ok?
    ensures r.Ok? ==> var ds := Iterate(Get(trade, "bulkBlockDeals").value).value;
                      |r.value| == |ds| && forall i :: 0 <= i < |ds| ==> Get(ds[i], "name") == Ok(r.value[i])
  {
    var deals :- Get(trade, "bulkBlockDeals");
    var ds :- Iterate(deals);
    MapAll(ds, (d: Value) => Get(d, "name"))
  }

  /** Puts `first` and the array `names` before the other parameters of `row`. */
  function Prefixed(row: Outcome<Insert>, first: Outcome<Value>, names: Outcome<seq<Value>>): (r: Outcome<Insert>)
    ensures r.Ok? <==> row.Ok? && first.Ok? && names.Ok?
    ensures r.Ok? ==> && r.value.table == row.value.table && r.value.symbol == row.value.symbol
                      && |r.value.cells| == 2 + |row.value.cells|
                      && r.value.cells[0] == first.value && r.value.cells[1] == Array(names.value)
                      && forall i :: 0 <= i < |row.value.cells| ==> r.value.cells[i + 2] == row.value.cells[i]
  {
    var a :- first;
    var n :- names;
    var s :- row;
    Ok(Insert(s.table, s.symbol, [a, Array(n)] + s.cells))
  }

  /** A plain row with `first` and the array `names` put before its other parameters. */
  function PrefixedRow(t: Table, symbol: Outcome<Value>, v: Value, paths: seq<seq<string>>,
                       first: Outcome<Value>, names: Outcome<seq<Value>>): (r: Outcome<Insert>)
    ensures r.Ok? <==> symbol.Ok? && first.Ok? && names.Ok? && forall i :: 0 <= i < |paths| ==> Path(v, paths[i]).Ok?
    ensures r.Ok? ==> && r.value.table == t && symbol == Ok(r.value.symbol) && |r.value.cells| == 2 + |paths|
                      && first == Ok(r.value.cells[0]) && r.value.cells[1] == Array(names.value)
                      && forall i :: 0 <= i < |paths| ==> Path(v, paths[i]) == Ok(r.value.cells[i + 2])
  {
    Prefixed(PlainRow(t, symbol, v, paths), first, names)
  }

  /** trade_info: `noBlockDeals`, the names of the bulk and block deals as one array, and
      the order-book values as they are. */
  function TradeRow(x: Sections): (r: Outcome<Insert>)
    ensures r.Ok? <==> && Get(x.info, "symbol").Ok?
                       && Get(x.tradeInfo, "noBlockDeals").Ok?
                       && DealNames(x.tradeInfo).Ok?
                       && forall i :: 0 <= i < |OrderBookPaths| ==> Path(x.orderBook, OrderBookPaths[i]).Ok?
    ensures r.Ok? ==> && RowOf(r.value, TradeInfo)
                      && Get(x.info, "symbol") == Ok(r.value.symbol)
                      && Get(x.tradeInfo, "noBlockDeals") == Ok(r.value.cells[0])
                      && r.value.cells[1].Array? && DealNames(x.tradeInfo) == Ok(r.value.cells[1].items)
                      && forall i :: 0 <= i < |OrderBookPaths| ==> Path(x.orderBook, OrderBookPaths[i]) == Ok(r.value.cells[i + 2])
  {
    PrefixedRow(TradeInfo, Get(x.info, "symbol"), x.orderBook, OrderBookPaths,
                Get(x.tradeInfo, "noBlockDeals"), DealNames(x.tradeInfo))
  }

  const DpColumns: seq<Column> := [
    Column(["quantityTraded"], SafeNum), Column(["deliveryQuantity"], SafeNum),
    Column(["deliveryToTradedQuantity"], SafeNum), Column(["seriesRemarks"], SafeStr),
    Column(["secWiseDelPosDate"], SafeDay)
  ]

  /** security_wise_dp: the three quantities through `safe_numeric`, the remarks through
      `safe_string` and the date through `safe_date`. */
  function SecurityWiseDpRow(x: Sections, parse: string -> Option<real>): (r: Outcome<Insert>)
    ensures r.Ok? <==> Get(x.info, "symbol").Ok? && forall i :: 0 <= i < |DpColumns| ==> Cell(x.securityWiseDp, DpColumns[i], parse).Ok?
    ensures r.Ok? ==> && RowOf(r.value, SecurityWiseDp)
                      && Get(x.info, "symbol") == Ok(r.value.symbol)
                      && CellsOf(r.value.cells, x.securityWiseDp, DpColumns, parse)
  {
    assert |DpColumns| == Width(SecurityWiseDp);
    Row(SecurityWiseDp, Get(x.info, "symbol"), x.securityWiseDp, DpColumns, parse)
  }

  /** Every delivery-position parameter is NULL exactly when the feed has a placeholder
      ('-', 'NA' or null) there. */
  lemma SecurityWiseDpNulls(x: Sections, parse: string -> Option<real>)
    requires SecurityWiseDpRow(x, parse).Ok?
    ensures NullWhereSentinel(SecurityWiseDpRow(x, parse).value.cells, x.securityWiseDp, DpColumns)
  {
    DpCasts();
    SafeCells(SecurityWiseDpRow(x, parse).value.cells, x.securityWiseDp, DpColumns, parse);
  }

  lemma DpCasts()
    ensures forall i :: 0 <= i < |DpColumns| ==> DpColumns[i].cast in {SafeNum, SafeStr, SafeDay}
  {
  }

  const ActionPaths: seq<seq<string>> := [["exdate"], ["purpose"]]

  /** corporate_actions: each action carries its own symbol. */
  function CorporateActionRow(a: Value): (r: Outcome<Insert>)
    ensures r.Ok? <==> Get(a, "symbol").Ok? && Get(a, "exdate").Ok? && Get(a, "purpose").Ok?
    ensures r.Ok? ==> && RowOf(r.value, CorporateActions)
                      && Get(a, "symbol") == Ok(r.value.symbol)
                      && r.value.cells == [Get(a, "exdate").value, Get(a, "purpose").value]
  {
    var r := PlainRow(CorporateActions, Get(a, "symbol"), a, ActionPaths);
    assert r.Ok? ==> r.value.cells == [Get(a, "exdate").value, Get(a, "purpose").value] by {
      if r.Ok? {
        assert Path(a, ActionPaths[0]) == Ok(r.value.cells[0]);
        assert Path(a, ActionPaths[1]) == Ok(r.value.cells[1]);
      }
    }
    r
  }

  /** No plain column converts anything; `PlainRow` reads its columns with this. */
  const Unparsed: string -> Option<real> := (s: string) => None

  /** shareholdings_patterns: one row per reporting date, under the file's symbol, with
      the date (the dict key) and the four pivoted percentages. */
  function ShareholdingRow(symbol: Value, date: Field): (r: Outcome<Insert>)
    ensures r.Ok? <==> Shareholding.PivotOf(date.value).Ok?
    ensures r.Ok? ==> && RowOf(r.value, ShareholdingsPatterns)
                      && r.value.symbol == symbol
                      && r.value.cells[0] == Str(date.key)
                      && forall c :: r.value.cells[1 + CategoryColumn(c)]
                                     == Shareholding.FieldOf(Shareholding.PivotOf(date.value).value, c)
  {
    var h :- Shareholding.PivotOf(date.value);
    Ok(Insert(ShareholdingsPatterns, symbol, [Str(date.key), h.promoter, h.public, h.employeeTrusts, h.total]))
  }

  /** The position of a category among the four percentage columns. */
  function CategoryColumn(c: Shareholding.Category): (r: nat)
    ensures r < 4
  {
    match c
    case Promoter => 0
    case Public => 1
    case EmployeeTrusts => 2
    case Total => 3
  }

  const ResultPaths: seq<seq<string>> := [
    ["from_date"], ["to_date"], ["expenditure"], ["income"], ["audited"], ["cumulative"],
    ["consolidated"], ["reDilEPS"], ["reProLossBefTax"], ["proLossAftTax"],
    ["re_broadcast_timestamp"], ["xbrl_attachment"], ["na_attachment"]
  ]

  /** financial_results: one row per result under the file's symbol, values as they are. */
  function FinancialResultRow(symbol: Value, res: Value): (r: Outcome<Insert>)
    ensures r.Ok? <==> forall i :: 0 <= i < |ResultPaths| ==> Path(res, ResultPaths[i]).Ok?
    ensures r.Ok? ==> && RowOf(r.value, FinancialResults)
                      && r.value.symbol == symbol
                      && forall i :: 0 <= i < |ResultPaths| ==> Path(res, ResultPaths[i]) == Ok(r.value.cells[i])
  {
    PlainRow(FinancialResults, Ok(symbol), res, ResultPaths)
  }

  const MeetingPaths: seq<seq<string>> := [["purpose"], ["meetingdate"]]

  /** board_meeting: each meeting carries its own symbol. */
  function BoardMeetingRow(m: Value): (r: Outcome<Insert>)
    ensures r.Ok? <==> Get(m, "symbol").Ok? && Get(m, "purpose").Ok? && Get(m, "meetingdate").Ok?
    ensures r.Ok? ==> && RowOf(r.value, BoardMeeting)
                      && Get(m, "symbol") == Ok(r.value.symbol)
                      && r.value.cells == [Get(m, "purpose").value, Get(m, "meetingdate").value]
  {
    var r := PlainRow(BoardMeeting, Get(m, "symbol"), m, MeetingPaths);
    assert r.Ok? ==> r.value.cells == [Get(m, "purpose").value, Get(m, "meetingdate").value] by {
      if r.Ok? {
        assert Path(m, MeetingPaths[0]) == Ok(r.value.cells[0]);
        assert Path(m, MeetingPaths[1]) == Ok(r.value.cells[1]);
      }
    }
    r
  }

  /** Every statement a stage would run writes table `t`. */
  predicate StageOf(stage: Outcome<seq<Insert>>, t: Table) {
    stage.Ok? ==> forall j :: 0 <= j < |stage.value| ==> RowOf(stage.value[j], t)
  }

  /** A loop stage: one row built from each element visited, in order. */
  function EachRow<A>(items: Outcome<seq<A>>, row: A -> Outcome<Insert>): Outcome<seq<Insert>> {
    var xs :- items;
    MapAll(xs, row)
  }

  /** A loop stage raises exactly when the loop cannot start or some element's row
      cannot be built; otherwise it holds one row per element, in the elements' order. */
  lemma EachRowSpec<A>(items: Outcome<seq<A>>, row: A -> Outcome<Insert>)
    ensures items.Err? ==> EachRow(items, row) == Err(items.error)
    ensures EachRow(items, row).Ok? <==>
              items.Ok? && forall j :: 0 <= j < |items.value| ==> row(items.value[j]).Ok?
    ensures EachRow(items, row).Ok? ==>
              && |EachRow(items, row).value| == |items.value|
              && forall j :: 0 <= j < |items.value| ==> row(items.value[j]) == Ok(EachRow(items, row).value[j])
  {
  }

  lemma EachRowStage<A>(items: Outcome<seq<A>>, row: A -> Outcome<Insert>, t: Table)
    requires forall a :: row(a).Ok? ==> RowOf(row(a).value, t)
    ensures StageOf(EachRow(items, row), t)
  {
    var r := EachRow(items, row);
    if r.Ok? {
      forall j | 0 <= j < |r.value| ensures RowOf(r.value[j], t) {
        assert row(items.value[j]) == Ok(r.value[j]);
      }
    }
  }

  /** A one-statement stage. */
  function Single(r: Outcome<Insert>): (s: Outcome<seq<Insert>>)
    ensures s.Ok? <==> r.Ok?
    ensures s.Ok? ==> s.value == [r.value]
  {
    var row :- r;
    Ok([row])
  }

  function ShareholdingRowOf(symbol: Value): Field -> Outcome<Insert> {
    (d: Field) => ShareholdingRow(symbol, d)
  }

  function FinancialResultRowOf(symbol: Value): Value -> Outcome<Insert> {
    (res: Value) => FinancialResultRow(symbol, res)
  }

  /** corporate_actions: one row per action, in the feed's order. */
  function CorporateActionRows(x: Sections): (r: Outcome<seq<Insert>>)
    ensures StageOf(r, CorporateActions)
  {
    EachRowStage(Iterate(x.corporateActions), CorporateActionRow, CorporateActions);
    EachRow(Iterate(x.corporateActions), CorporateActionRow)
  }

  /** shareholdings_patterns: one row per reporting date, in the feed's order. */
  function ShareholdingRows(x: Sections): (r: Outcome<seq<Insert>>)
    ensures StageOf(r, ShareholdingsPatterns)
  {
    EachRowStage(Items(x.shareholdings), ShareholdingRowOf(x.symbol), ShareholdingsPatterns);
    EachRow(Items(x.shareholdings), ShareholdingRowOf(x.symbol))
  }

  /** financial_results: one row per result, in the feed's order. */
  function FinancialResultRows(x: Sections): (r: Outcome<seq<Insert>>)
    ensures StageOf(r, FinancialResults)
  {
    EachRowStage(Iterate(x.financialResults), FinancialResultRowOf(x.symbol), FinancialResults);
    EachRow(Iterate(x.financialResults), FinancialResultRowOf(x.symbol))
  }

  /** board_meeting: one row per meeting, in the feed's order. */
  function BoardMeetingRows(x: Sections): (r: Outcome<seq<Insert>>)
    ensures StageOf(r, BoardMeeting)
  {
    EachRowStage(Iterate(x.boardMeetings), BoardMeetingRow, BoardMeeting);
    EachRow(Iterate(x.boardMeetings), BoardMeetingRow)
  }

  /** corporate_actions holds one row per action of the feed, in order; it raises when
      the actions cannot be iterated or an action lacks a field. */
  lemma CorporateActionRowsOfFeed(x: Sections)
    ensures CorporateActionRows(x).Ok? <==>
              && Iterate(x.corporateActions).Ok?
              && forall j :: 0 <= j < |Iterate(x.corporateActions).value| ==>
                   CorporateActionRow(Iterate(x.corporateActions).value[j]).Ok?
    ensures CorporateActionRows(x).Ok? ==>
              && |CorporateActionRows(x).value| == |Iterate(x.corporateActions).value|
              && forall j :: 0 <= j < |Iterate(x.corporateActions).value| ==>
                   CorporateActionRow(Iterate(x.corporateActions).value[j]) == Ok(CorporateActionRows(x).value[j])
  {
    EachRowSpec(Iterate(x.corporateActions), CorporateActionRow);
  }

  /** shareholdings_patterns holds one row per reporting date, in the feed's order; it
      raises when the section is no dict or a date's row cannot be built. */
  lemma ShareholdingRowsOfFeed(x: Sections)
    ensures ShareholdingRows(x).Ok? <==>
              && Items(x.shareholdings).Ok?
              && forall j :: 0 <= j < |Items(x.shareholdings).value| ==>
                   ShareholdingRow(x.symbol, Items(x.shareholdings).value[j]).Ok?
    ensures ShareholdingRows(x).Ok? ==>
              && |ShareholdingRows(x).value| == |Items(x.shareholdings).value|
              && forall j :: 0 <= j < |Items(x.shareholdings).value| ==>
                   ShareholdingRow(x.symbol, Items(x.shareholdings).value[j]) == Ok(ShareholdingRows(x).value[j])
  {
    EachRowSpec(Items(x.shareholdings), ShareholdingRowOf(x.symbol));
  }

  /** financial_results holds one row per result, in the feed's order; it raises when the
      results cannot be iterated or a result lacks a field. */
  lemma FinancialResultRowsOfFeed(x: Sections)
    ensures FinancialResultRows(x).Ok? <==>
              && Iterate(x.financialResults).Ok?
              && forall j :: 0 <= j < |Iterate(x.financialResults).value| ==>
                   FinancialResultRow(x.symbol, Iterate(x.financialResults).value[j]).Ok?
    ensures FinancialResultRows(x).Ok? ==>
              && |FinancialResultRows(x).value| == |Iterate(x.financialResults).value|
              && forall j :: 0 <= j < |Iterate(x.financialResults).value| ==>
                   FinancialResultRow(x.symbol, Iterate(x.financialResults).value[j]) == Ok(FinancialResultRows(x).value[j])
  {
    EachRowSpec(Iterate(x.financialResults), FinancialResultRowOf(x.symbol));
  }

  /** board_meeting holds one row per meeting, in the feed's order; it raises when the
      meetings cannot be iterated or a meeting lacks a field. */
  lemma BoardMeetingRowsOfFeed(x: Sections)
    ensures BoardMeetingRows(x).Ok? <==>
              && Iterate(x.boardMeetings).Ok?
              && forall j :: 0 <= j < |Iterate(x.boardMeetings).value| ==>
                   BoardMeetingRow(Iterate(x.boardMeetings).value[j]).Ok?
    ensures BoardMeetingRows(x).Ok? ==>
              && |BoardMeetingRows(x).value| == |Iterate(x.boardMeetings).value|
              && forall j :: 0 <= j < |Iterate(x.boardMeetings).value| ==>
                   BoardMeetingRow(Iterate(x.boardMeetings).value[j]) == Ok(BoardMeetingRows(x).value[j])
  {
    EachRowSpec(Iterate(x.boardMeetings), BoardMeetingRow);
  }

  /** The tables in the order the loader writes them, one commit each. */
  const StageTables: seq<Table> := [
    EquityInfo, EquityMetadata, EquityPriceInfo, EquityIndustryInfo, TradeInfo, SecurityWiseDp,
    CorporateActions, ShareholdingsPatterns, FinancialResults, BoardMeeting
  ]

  /** The rows of the six single-statement stages, equity_info to security_wise_dp. */
  function EquityRows(x: Sections, parse: string -> Option<real>): (r: seq<Outcome<Insert>>)
    ensures |r| == 6
  {
    [InfoRow(x), MetadataRow(x, parse), PriceRow(x),
     IndustryRow(x), TradeRow(x), SecurityWiseDpRow(x, parse)]
  }

  /** Each row as a stage of its own. */
  function Singles(rows: seq<Outcome<Insert>>): (r: seq<Outcome<seq<Insert>>>)
    ensures |r| == |rows| && forall i :: 0 <= i < |rows| ==> r[i] == Single(rows[i])
  {
    seq(|rows|, i requires 0 <= i < |rows| => Single(rows[i]))
  }

  /** The statements of the ten stages, in the order they run (stage `i` writes
      `StageTables[i]`); a stage whose parameters cannot be built raises before (or, in a
      loop, between) its statements. */
  function Plan(x: Sections, parse: string -> Option<real>): (r: seq<Outcome<seq<Insert>>>)
    ensures |r| == |StageTables|
    ensures forall i :: 0 <= i < 6 ==> r[i] == Single(EquityRows(x, parse)[i])
    ensures r[6] == CorporateActionRows(x) && r[7] == ShareholdingRows(x)
    ensures r[8] == FinancialResultRows(x) && r[9] == BoardMeetingRows(x)
  {
    Singles(EquityRows(x, parse))
    + [CorporateActionRows(x), ShareholdingRows(x), FinancialResultRows(x), BoardMeetingRows(x)]
  }

  /** Stage `i` writes only `StageTables[i]`, and each of the first six runs a single
      INSERT. */
  lemma PlanStages(x: Sections, parse: string -> Option<real>)
    ensures forall i :: 0 <= i < |StageTables| ==> StageOf(Plan(x, parse)[i], StageTables[i])
    ensures forall i :: 0 <= i < 6 ==> Plan(x, parse)[i].Ok? ==> |Plan(x, parse)[i].value| == 1
  {
    EquityRowsOf(x, parse);
    InTableOrder(Plan(x, parse), EquityRows(x, parse));
  }

  /** The `i`-th single-statement row is a row of `StageTables[i]`. */
  lemma EquityRowsOf(x: Sections, parse: string -> Option<real>)
    ensures forall i :: 0 <= i < 6 ==>
              EquityRows(x, parse)[i].Ok? ==> RowOf(EquityRows(x, parse)[i].value, StageTables[i])
  {
    SixRowsOf(EquityRows(x, parse), InfoRow(x), MetadataRow(x, parse), PriceRow(x),
              IndustryRow(x), TradeRow(x), SecurityWiseDpRow(x, parse));
  }

  /** Six rows of the first six tables, listed in table order. */
  lemma SixRowsOf(rows: seq<Outcome<Insert>>, a: Outcome<Insert>, b: Outcome<Insert>, c: Outcome<Insert>,
                  d: Outcome<Insert>, e: Outcome<Insert>, f: Outcome<Insert>)
    requires rows == [a, b, c, d, e, f]
    requires a.Ok? ==> RowOf(a.value, EquityInfo)
    requires b.Ok? ==> RowOf(b.value, EquityMetadata)
    requires c.Ok? ==> RowOf(c.value, EquityPriceInfo)
    requires d.Ok? ==> RowOf(d.value, EquityIndustryInfo)
    requires e.Ok? ==> RowOf(e.value, TradeInfo)
    requires f.Ok? ==> RowOf(f.value, SecurityWiseDp)
    ensures forall i :: 0 <= i < 6 ==> rows[i].Ok? ==> RowOf(rows[i].value, StageTables[i])
  {
    forall i | 0 <= i < 6 ensures rows[i].Ok? ==> RowOf(rows[i].value, StageTables[i]) {
      if i == 0 {} else if i == 1 {} else if i == 2 {} else if i == 3 {} else if i == 4 {} else {}
    }
  }

  /** Single stages over rows of their tables, followed by the four loop stages, are
      stages in table order. */
  lemma InTableOrder(plan: seq<Outcome<seq<Insert>>>, rows: seq<Outcome<Insert>>)
    requires |plan| == |StageTables| && |rows| == 6
    requires forall i :: 0 <= i < 6 ==> plan[i] == Single(rows[i])
    requires forall i :: 0 <= i < 6 ==> rows[i].Ok? ==> RowOf(rows[i].value, StageTables[i])
    requires StageOf(plan[6], CorporateActions) && StageOf(plan[7], ShareholdingsPatterns)
    requires StageOf(plan[8], FinancialResults) && StageOf(plan[9], BoardMeeting)
    ensures forall i :: 0 <= i < |StageTables| ==> StageOf(plan[i], StageTables[i])
    ensures forall i :: 0 <= i < 6 ==> plan[i].Ok? ==> |plan[i].value| == 1
  {
    forall i | 0 <= i < 6 ensures StageOf(plan[i], StageTables[i]) && (plan[i].Ok? ==> |plan[i].value| == 1) {
      SingleStageOf(rows[i], StageTables[i]);
    }
  }

  /** A single-statement stage whose row is a row of `t`. */
  lemma SingleStageOf(r: Outcome<Insert>, t: Table)
    requires r.Ok? ==> RowOf(r.value, t)
    ensures StageOf(Single(r), t) && (Single(r).Ok? ==> |Single(r).value| == 1)
  {
  }
}
