/** The ten tables the loader writes, as one map from (table, symbol) to the row's
    other columns, and the meaning of its two kinds of INSERT. */
module Tables {
  import opened Results
  import opened Json

  datatype Table =
    | EquityInfo
    | EquityMetadata
    | EquityPriceInfo
    | EquityIndustryInfo
    | TradeInfo
    | SecurityWiseDp
    | CorporateActions
    | ShareholdingsPatterns
    | FinancialResults
    | BoardMeeting

  /** `ON CONFLICT (symbol) DO UPDATE SET ...` or `ON CONFLICT (symbol) DO NOTHING`. */
  datatype Policy = Upsert | InsertIfAbsent

  /** The conflict clause written on each table's INSERT. */
  function PolicyOf(t: Table): Policy {
    match t
    case EquityInfo => Upsert
    case EquityPriceInfo => Upsert
    case EquityIndustryInfo => Upsert
    case TradeInfo => Upsert
    case _ => InsertIfAbsent
  }

  /** The number of columns after `symbol`. */
  function Width(t: Table): nat {
    match t
    case EquityInfo => 4
    case EquityMetadata => 9
    case EquityPriceInfo => 23
    case EquityIndustryInfo => 4
    case TradeInfo => 19
    case SecurityWiseDp => 5
    case CorporateActions => 2
    case ShareholdingsPatterns => 5
    case FinancialResults => 13
    case BoardMeeting => 2
  }

  /** The columns after `symbol`, in the order the table is created with. */
  function Columns(t: Table): (r: seq<string>)
    ensures |r| == Width(t)
  {
    match t
    case EquityInfo => ["company_name", "industry", "isin", "slb_isin"]
    case EquityMetadata =>
      ["series", "isin", "status", "listing_date", "industry", "last_update_time",
       "pd_sector_pe", "pd_symbol_pe", "pd_sector_ind"]
    case EquityPriceInfo =>
      ["last_price", "change", "p_change", "previous_close", "open", "close", "vwap",
       "stock_ind_close_price", "lower_cp", "upper_cp", "p_price_band", "base_price", "min",
       "max", "intraday_high_low_value", "week_high_low_min", "week_high_low_min_date",
       "week_high_low_max", "week_high_low_max_date", "week_high_low_value", "i_nav_value",
       "check_i_nav", "tick_size"]
    case EquityIndustryInfo => ["macro", "sector", "industry", "basic_industry"]
    case TradeInfo =>
      ["no_block_deals", "bulk_block_deals_name", "total_buy_quantity", "total_sell_quantity",
       "trade_info_total_traded_volume", "trade_info_total_traded_value",
       "trade_info_total_market_cap", "ffmc", "impact_cost", "cm_daily_volatility",
       "cm_annual_volatility", "market_lot", "active_series", "security_var", "index_var",
       "var_margin", "extreme_loss_margin", "adhoc_margin", "applicable_margin"]
    case SecurityWiseDp =>
      ["quantity_traded", "delivery_quantity", "delivery_to_traded_quantity", "series_remarks",
       "sec_wise_del_pos_date"]
    case CorporateActions => ["exdate", "purpose"]
    case ShareholdingsPatterns =>
      ["date", "promoter_and_promoter_group", "public", "shares_held_by_employee_trusts", "total"]
    case FinancialResults =>
      ["from_date", "to_date", "expenditure", "income", "audited", "cumulative", "consolidated",
       "re_dil_eps", "re_pro_loss_bef_tax", "pro_loss_aft_tax", "re_broadcast_timestamp",
       "xbrl_attachment", "na_attachment"]
    case BoardMeeting => ["purpose", "meeting_date"]
  }

  /** One INSERT with its bound parameters: the value bound to `symbol` and the
      other columns in the order of `Columns(table)`. */
  datatype Insert = Insert(table: Table, symbol: Value, cells: seq<Value>)

  datatype RowKey = RowKey(table: Table, symbol: Value)

  /** Every table is keyed by `symbol` (a primary key for equity_info, UNIQUE elsewhere),
      so each holds at most one row per symbol. */
  type Db = map<RowKey, seq<Value>>

  function KeyOf(s: Insert): RowKey {
    RowKey(s.table, s.symbol)
  }

  /** The statement adds a row rather than meeting an existing one. */
  predicate AddsRow(db: Db, s: Insert) {
    KeyOf(s) !in db
  }

  /** The key constraints Postgres checks on a new row: equity_info's primary key is
      never NULL, and every other table's symbol references equity_info. */
  predicate KeysOk(db: Db, s: Insert) {
    if s.table == EquityInfo then s.symbol != Null
    else s.symbol == Null || RowKey(EquityInfo, s.symbol) in db
  }

  /** Whether the server runs the statement without raising. `accepts` stands for the
      checks the model does not spell out: each parameter's cast to its column type,
      `TO_DATE`, and the VARCHAR length limits. */
  predicate Admits(db: Db, s: Insert, accepts: Insert -> bool) {
    accepts(s) && (AddsRow(db, s) ==> KeysOk(db, s))
  }

  /** The effect of an admitted statement. */
  function Apply(db: Db, s: Insert): (r: Db)
    ensures r.Keys == db.Keys + {KeyOf(s)}
    ensures PolicyOf(s.table) == Upsert ==> r[KeyOf(s)] == s.cells
    ensures PolicyOf(s.table) == InsertIfAbsent && KeyOf(s) in db ==> r == db
    ensures PolicyOf(s.table) == InsertIfAbsent && KeyOf(s) !in db ==> r[KeyOf(s)] == s.cells
    ensures forall k :: k in db && k != KeyOf(s) ==> r[k] == db[k]
  {
    if AddsRow(db, s) || PolicyOf(s.table) == Upsert then db[KeyOf(s) := s.cells] else db
  }

  /** Runs the statements in order inside the open transaction; None as soon as one
      raises. */
  function ApplyAll(db: Db, ss: seq<Insert>, accepts: Insert -> bool): (r: Option<Db>)
    decreases |ss|
  {
    if ss == [] then Some(db)
    else if !Admits(db, ss[0], accepts) then None
    else ApplyAll(Apply(db, ss[0]), ss[1..], accepts)
  }

  /** Running `a` and then `b` is running `a + b`. */
  lemma {:induction false} ApplyAllConcat(db: Db, a: seq<Insert>, b: seq<Insert>, accepts: Insert -> bool)
    ensures ApplyAll(db, a + b, accepts)
            == if ApplyAll(db, a, accepts).None? then None else ApplyAll(ApplyAll(db, a, accepts).value, b, accepts)
    decreases |a|
  {
    if a == [] {
      assert a + b == b;
    } else {
      assert (a + b)[0] == a[0];
      assert (a + b)[1..] == a[1..] + b;
      ApplyAllConcat(Apply(db, a[0]), a[1..], b, accepts);
    }
  }

  /** One more admitted statement after a successful run. */
  lemma ApplyAllSnoc(db: Db, ss: seq<Insert>, s: Insert, accepts: Insert -> bool)
    requires ApplyAll(db, ss, accepts).Some?
    ensures ApplyAll(db, ss + [s], accepts)
            == if Admits(ApplyAll(db, ss, accepts).value, s, accepts)
               then Some(Apply(ApplyAll(db, ss, accepts).value, s)) else None
  {
    ApplyAllConcat(db, ss, [s], accepts);
  }

  /** A statement the server refuses ends the run. */
  lemma ApplyAllStuck(db: Db, ss: seq<Insert>, i: nat, accepts: Insert -> bool)
    requires i < |ss| && ApplyAll(db, ss[..i], accepts).Some?
    requires !Admits(ApplyAll(db, ss[..i], accepts).value, ss[i], accepts)
    ensures ApplyAll(db, ss, accepts).None?
  {
    assert ss == ss[..i] + ss[i..];
    ApplyAllConcat(db, ss[..i], ss[i..], accepts);
    assert ss[i..][0] == ss[i];
  }

  /** `k` is the key of one of the statements. */
  predicate Writes(ss: seq<Insert>, k: RowKey) {
    exists i :: 0 <= i < |ss| && KeyOf(ss[i]) == k
  }

  /** No row disappears, and a key no statement names keeps its row. */
  lemma {:induction false} ApplyAllFrame(db: Db, ss: seq<Insert>, accepts: Insert -> bool)
    requires ApplyAll(db, ss, accepts).Some?
    ensures db.Keys <= ApplyAll(db, ss, accepts).value.Keys
    ensures forall i :: 0 <= i < |ss| ==> KeyOf(ss[i]) in ApplyAll(db, ss, accepts).value
    ensures forall k :: !Writes(ss, k) ==>
              (k in ApplyAll(db, ss, accepts).value <==> k in db)
              && (k in db ==> ApplyAll(db, ss, accepts).value[k] == db[k])
    decreases |ss|
  {
    if ss != [] {
      var d1 := Apply(db, ss[0]);
      ApplyAllFrame(d1, ss[1..], accepts);
      var d := ApplyAll(db, ss, accepts).value;
      forall i | 0 <= i < |ss| ensures KeyOf(ss[i]) in d {
        if i > 0 { assert ss[i] == ss[1..][i - 1]; }
      }
      forall k | !Writes(ss, k)
        ensures (k in d <==> k in db) && (k in db ==> d[k] == db[k])
      {
        assert KeyOf(ss[0]) != k;
        assert !Writes(ss[1..], k) by {
          forall i | 0 <= i < |ss[1..]| ensures KeyOf(ss[1..][i]) != k {
            assert ss[1..][i] == ss[i + 1];
          }
        }
      }
    }
  }

  /** A row of an insert-if-absent table, once there, is never changed. */
  lemma {:induction false} ApplyAllKeepsInsertIfAbsentRows(db: Db, ss: seq<Insert>, accepts: Insert -> bool, k: RowKey)
    requires ApplyAll(db, ss, accepts).Some?
    requires k in db && PolicyOf(k.table) == InsertIfAbsent
    ensures k in ApplyAll(db, ss, accepts).value && ApplyAll(db, ss, accepts).value[k] == db[k]
    decreases |ss|
  {
    if ss != [] {
      ApplyAllKeepsInsertIfAbsentRows(Apply(db, ss[0]), ss[1..], accepts, k);
    }
  }

  /** Under the UNIQUE(symbol) constraint with DO NOTHING, a loop of inserts keeps, for a
      symbol not yet stored, the first statement's row and drops the later ones. */
  lemma {:induction false} FirstInsertWins(db: Db, ss: seq<Insert>, accepts: Insert -> bool, i: nat)
    requires ApplyAll(db, ss, accepts).Some?
    requires i < |ss| && PolicyOf(ss[i].table) == InsertIfAbsent
    requires KeyOf(ss[i]) !in db
    requires forall j :: 0 <= j < i ==> KeyOf(ss[j]) != KeyOf(ss[i])
    ensures KeyOf(ss[i]) in ApplyAll(db, ss, accepts).value
    ensures ApplyAll(db, ss, accepts).value[KeyOf(ss[i])] == ss[i].cells
    decreases |ss|
  {
    var k := KeyOf(ss[i]);
    var d1 := Apply(db, ss[0]);
    if i == 0 {
      ApplyAllKeepsInsertIfAbsentRows(d1, ss[1..], accepts, k);
    } else {
      assert KeyOf(ss[0]) != k;
      forall j | 0 <= j < i - 1 ensures KeyOf(ss[1..][j]) != KeyOf(ss[1..][i - 1]) {
        assert ss[1..][j] == ss[j + 1];
      }
      FirstInsertWins(d1, ss[1..], accepts, i - 1);
    }
  }

  /** The row an upsert writes stays unless a later statement names the same key. */
  lemma {:induction false} LastUpsertWins(db: Db, ss: seq<Insert>, accepts: Insert -> bool, i: nat)
    requires ApplyAll(db, ss, accepts).Some?
    requires i < |ss| && PolicyOf(ss[i].table) == Upsert
    requires forall j :: i < j < |ss| ==> KeyOf(ss[j]) != KeyOf(ss[i])
    ensures KeyOf(ss[i]) in ApplyAll(db, ss, accepts).value
    ensures ApplyAll(db, ss, accepts).value[KeyOf(ss[i])] == ss[i].cells
    decreases |ss|
  {
    var d1 := Apply(db, ss[0]);
    if i == 0 {
      assert !Writes(ss[1..], KeyOf(ss[0])) by {
        forall j | 0 <= j < |ss[1..]| ensures KeyOf(ss[1..][j]) != KeyOf(ss[0]) {
          assert ss[1..][j] == ss[j + 1];
        }
      }
      ApplyAllFrame(d1, ss[1..], accepts);
    } else {
      forall j | i - 1 < j < |ss[1..]| ensures KeyOf(ss[1..][j]) != KeyOf(ss[1..][i - 1]) {
        assert ss[1..][j] == ss[j + 1];
      }
      LastUpsertWins(d1, ss[1..], accepts, i - 1);
    }
  }

  /** `d` holds, for every upserted key, the row of the last statement naming that key. */
  ghost predicate HoldsLastUpserts(d: Db, ss: seq<Insert>) {
    forall i :: 0 <= i < |ss| && PolicyOf(ss[i].table) == Upsert
                && (forall j :: i < j < |ss| ==> KeyOf(ss[j]) != KeyOf(ss[i]))
                ==> KeyOf(ss[i]) in d && d[KeyOf(ss[i])] == ss[i].cells
  }

  lemma HoldsLastUpsertsAfterRun(db: Db, ss: seq<Insert>, accepts: Insert -> bool)
    requires ApplyAll(db, ss, accepts).Some?
    ensures HoldsLastUpserts(ApplyAll(db, ss, accepts).value, ss)
  {
    var d := ApplyAll(db, ss, accepts).value;
    forall i | 0 <= i < |ss| && PolicyOf(ss[i].table) == Upsert
               && (forall j :: i < j < |ss| ==> KeyOf(ss[j]) != KeyOf(ss[i]))
      ensures KeyOf(ss[i]) in d && d[KeyOf(ss[i])] == ss[i].cells
    {
      ApplyAllFrame(db, ss, accepts);
      LastUpsertWins(db, ss, accepts, i);
    }
  }

  /** Every statement was accepted by the server's casts. */
  lemma {:induction false} ApplyAllAccepted(db: Db, ss: seq<Insert>, accepts: Insert -> bool)
    requires ApplyAll(db, ss, accepts).Some?
    ensures forall i :: 0 <= i < |ss| ==> accepts(ss[i])
    decreases |ss|
  {
    if ss != [] {
      ApplyAllAccepted(Apply(db, ss[0]), ss[1..], accepts);
      forall i | 0 < i < |ss| ensures accepts(ss[i]) {
        assert ss[i] == ss[1..][i - 1];
      }
    }
  }

  /** Rerunning statements whose rows are all present, on a state that differs from `d`
      only on keys they upsert, ends in `d` when `d` already holds their last upserts. */
  lemma {:induction false} RerunSettles(e: Db, d: Db, ss: seq<Insert>, accepts: Insert -> bool)
    requires forall i :: 0 <= i < |ss| ==> accepts(ss[i]) && KeyOf(ss[i]) in d
    requires HoldsLastUpserts(d, ss)
    requires e.Keys == d.Keys
    requires forall k :: k in e && e[k] != d[k] ==>
               exists i :: 0 <= i < |ss| && KeyOf(ss[i]) == k && PolicyOf(k.table) == Upsert
    ensures ApplyAll(e, ss, accepts) == Some(d)
    decreases |ss|
  {
    if ss == [] {
      assert e == d;
    } else {
      var s := ss[0];
      var rest := ss[1..];
      assert forall i :: 0 <= i < |rest| ==> rest[i] == ss[i + 1];
      assert Admits(e, s, accepts);
      var e1 := Apply(e, s);
      assert HoldsLastUpserts(d, rest) by {
        forall i | 0 <= i < |rest| && PolicyOf(rest[i].table) == Upsert
                   && (forall j :: i < j < |rest| ==> KeyOf(rest[j]) != KeyOf(rest[i]))
          ensures KeyOf(rest[i]) in d && d[KeyOf(rest[i])] == rest[i].cells
        {
          assert forall j :: i + 1 < j < |ss| ==> ss[j] == rest[j - 1];
        }
      }
      forall k | k in e1 && e1[k] != d[k]
        ensures exists i :: 0 <= i < |rest| && KeyOf(rest[i]) == k && PolicyOf(k.table) == Upsert
      {
        if k == KeyOf(s) {
          assert PolicyOf(s.table) == Upsert;
          if forall j :: 0 < j < |ss| ==> KeyOf(ss[j]) != KeyOf(s) {
            assert false;
          } else {
            var j :| 0 < j < |ss| && KeyOf(ss[j]) == KeyOf(s);
            assert KeyOf(rest[j - 1]) == k;
          }
        } else {
          assert e[k] != d[k];
          var i :| 0 <= i < |ss| && KeyOf(ss[i]) == k && PolicyOf(k.table) == Upsert;
          assert i != 0;
          assert KeyOf(rest[i - 1]) == k;
        }
      }
      RerunSettles(e1, d, rest, accepts);
    }
  }

  /** Running the same statements twice has the effect of running them once: upserts
      write the same rows again and inserts-if-absent find their rows present. */
  lemma ApplyAllIdempotent(db: Db, ss: seq<Insert>, accepts: Insert -> bool)
    requires ApplyAll(db, ss, accepts).Some?
    ensures ApplyAll(ApplyAll(db, ss, accepts).value, ss, accepts) == ApplyAll(db, ss, accepts)
  {
    var d := ApplyAll(db, ss, accepts).value;
    ApplyAllFrame(db, ss, accepts);
    ApplyAllAccepted(db, ss, accepts);
    HoldsLastUpsertsAfterRun(db, ss, accepts);
    RerunSettles(d, d, ss, accepts);
  }

  /** Referential integrity: no NULL primary key, and every other row's symbol is NULL
      or names an equity_info row. */
  ghost predicate Integrity(db: Db) {
    && RowKey(EquityInfo, Null) !in db
    && forall k :: k in db && k.table != EquityInfo && k.symbol != Null ==> RowKey(EquityInfo, k.symbol) in db
  }

  lemma {:induction false} ApplyAllIntegrity(db: Db, ss: seq<Insert>, accepts: Insert -> bool)
    requires Integrity(db)
    requires ApplyAll(db, ss, accepts).Some?
    ensures Integrity(ApplyAll(db, ss, accepts).value)
    decreases |ss|
  {
    if ss != [] {
      var d1 := Apply(db, ss[0]);
      assert Integrity(d1);
      ApplyAllIntegrity(d1, ss[1..], accepts);
    }
  }
}
