/** The loader's control flow: each file's ten stages, committed one by one, a rollback
    and a move to the next file when anything raises, and the walk over the directory. */
module Loader {
  import opened Results
  import opened Json
  import opened Tables
  import opened Extract
  import opened Database
  import Shareholding

  /** The effect of one stage inside its transaction: None when building a parameter or
      running a statement raises. */
  function RunStage(db: Db, stage: Outcome<seq<Insert>>, accepts: Insert -> bool): Option<Db> {
    if stage.Err? then None else ApplyAll(db, stage.value, accepts)
  }

  /** What processing one file leaves committed, and whether it got through. */
  datatype FileResult = FileResult(db: Db, loaded: bool)

  /** Runs stages `i..` of `plan`, committing after each and stopping (after a rollback)
      at the first that raises. */
  function RunFrom(db: Db, plan: seq<Outcome<seq<Insert>>>, i: nat, accepts: Insert -> bool): FileResult
    requires i <= |plan|
    decreases |plan| - i
  {
    if i == |plan| then FileResult(db, true)
    else match RunStage(db, plan[i], accepts)
      case None => FileResult(db, false)
      case Some(d) => RunFrom(d, plan, i + 1, accepts)
  }

  /** One file: `doc` is None when the file cannot be read or is not JSON. */
  function ProcessFile(db: Db, doc: Option<Value>, parse: string -> Option<real>, accepts: Insert -> bool): FileResult {
    if doc.None? then FileResult(db, false)
    else match ExtractSections(doc.value)
      case Err(_) => FileResult(db, false)
      case Ok(x) => RunFrom(db, Plan(x, parse), 0, accepts)
  }

  /** `stmt` inside the stage's transaction: the single INSERT of an upsert table or of
      equity_metadata and security_wise_dp. */
  method InsertOne(conn: Connection, row: Outcome<Insert>) returns (ok: bool)
    modifies conn
    ensures conn.committed == old(conn.committed)
    ensures ok <==> RunStage(old(conn.pending), Single(row), conn.accepts).Some?
    ensures ok ==> conn.pending == RunStage(old(conn.pending), Single(row), conn.accepts).value
  {
    if row.Err? {
      return false;
    }
    ok := conn.Execute(row.value);
    ApplyAllSnoc(old(conn.pending), [], row.value, conn.accepts);
    assert [] + [row.value] == [row.value];
  }

  /** A `for` loop that builds one row per element and executes it, stopping at the first
      element that raises. On failure the caller rolls the transaction back. */
  method InsertEach<A>(conn: Connection, items: Outcome<seq<A>>, row: A -> Outcome<Insert>) returns (ok: bool)
    modifies conn
    ensures conn.committed == old(conn.committed)
    ensures ok <==> RunStage(old(conn.pending), EachRow(items, row), conn.accepts).Some?
    ensures ok ==> conn.pending == RunStage(old(conn.pending), EachRow(items, row), conn.accepts).value
  {
    if items.Err? {
      return false;
    }
    var xs := items.value;
    ghost var start := conn.pending;
    ghost var rows: seq<Insert> := [];
    var i := 0;
    while i < |xs|
      invariant 0 <= i <= |xs|
      invariant conn.committed == old(conn.committed)
      invariant |rows| == i && forall j :: 0 <= j < i ==> row(xs[j]) == Ok(rows[j])
      invariant ApplyAll(start, rows, conn.accepts) == Some(conn.pending)
    {
      var s := row(xs[i]);
      if s.Err? {
        return false;
      }
      var executed := conn.Execute(s.value);
      if !executed {
        Stuck(start, xs, row, rows, i, conn.accepts);
        return false;
      }
      ApplyAllSnoc(start, rows, s.value, conn.accepts);
      rows := rows + [s.value];
      i := i + 1;
    }
    MapAllPointwise(xs, row, rows);
    return true;
  }

  /** The shareholding loop: each reporting date is pivoted by the nested loops of
      `Shareholding.Pivot` before its INSERT runs. */
  method InsertShareholdings(conn: Connection, x: Sections) returns (ok: bool)
    modifies conn
    ensures conn.committed == old(conn.committed)
    ensures ok <==> RunStage(old(conn.pending), ShareholdingRows(x), conn.accepts).Some?
    ensures ok ==> conn.pending == RunStage(old(conn.pending), ShareholdingRows(x), conn.accepts).value
  {
    var dates := Items(x.shareholdings);
    if dates.Err? {
      return false;
    }
    var fs := dates.value;
    ghost var row := ShareholdingRowOf(x.symbol);
    ghost var start := conn.pending;
    ghost var rows: seq<Insert> := [];
    var i := 0;
    while i < |fs|
      invariant 0 <= i <= |fs|
      invariant conn.committed == old(conn.committed)
      invariant |rows| == i && forall j :: 0 <= j < i ==> row(fs[j]) == Ok(rows[j])
      invariant ApplyAll(start, rows, conn.accepts) == Some(conn.pending)
    {
      var h := Shareholding.Pivot(fs[i].value);
      if h.Err? {
        assert row(fs[i]).Err?;
        return false;
      }
      var s := Insert(ShareholdingsPatterns, x.symbol,
                      [Str(fs[i].key), h.value.promoter, h.value.public, h.value.employeeTrusts, h.value.total]);
      assert row(fs[i]) == Ok(s);
      var executed := conn.Execute(s);
      if !executed {
        Stuck(start, fs, row, rows, i, conn.accepts);
        return false;
      }
      ApplyAllSnoc(start, rows, s, conn.accepts);
      rows := rows + [s];
      i := i + 1;
    }
    MapAllPointwise(fs, row, rows);
    return true;
  }

  lemma MapAllPointwise<A, B, E>(xs: seq<A>, f: A -> Result<B, E>, ys: seq<B>)
    requires |ys| == |xs| && forall j :: 0 <= j < |xs| ==> f(xs[j]) == Ok(ys[j])
    ensures MapAll(xs, f) == Ok(ys)
  {
    var r := MapAll(xs, f);
    assert r.Ok?;
    assert r.value == ys;
  }

  /** When the statement built from element `i` is refused, the whole stage fails. */
  lemma Stuck<A>(start: Db, xs: seq<A>, row: A -> Outcome<Insert>, rows: seq<Insert>, i: nat, accepts: Insert -> bool)
    requires i < |xs| && |rows| == i && forall j :: 0 <= j < i ==> row(xs[j]) == Ok(rows[j])
    requires row(xs[i]).Ok? && ApplyAll(start, rows, accepts).Some?
    requires !Admits(ApplyAll(start, rows, accepts).value, row(xs[i]).value, accepts)
    ensures RunStage(start, EachRow(Ok(xs), row), accepts).None?
  {
    var r := MapAll(xs, row);
    if r.Ok? {
      assert r.value[..i] == rows;
      ApplyAllStuck(start, r.value, i, accepts);
    }
  }

  /** Under UNIQUE(symbol), when a loop stage over `items` gets through, the row kept for
      a symbol new to the table is the one built from the first element naming it. */
  lemma LoopStageFirstWins<A>(db: Db, items: seq<A>, row: A -> Outcome<Insert>, accepts: Insert -> bool, j: nat)
    requires RunStage(db, EachRow(Ok(items), row), accepts).Some?
    requires j < |items| && row(items[j]).Ok? && PolicyOf(row(items[j]).value.table) == InsertIfAbsent
    requires KeyOf(row(items[j]).value) !in db
    requires forall i :: 0 <= i < j && row(items[i]).Ok? ==> KeyOf(row(items[i]).value) != KeyOf(row(items[j]).value)
    ensures var d := RunStage(db, EachRow(Ok(items), row), accepts).value;
            KeyOf(row(items[j]).value) in d && d[KeyOf(row(items[j]).value)] == row(items[j]).value.cells
  {
    EachRowSpec(Ok(items), row);
    var ss := EachRow(Ok(items), row).value;
    assert forall i :: 0 <= i < |items| ==> row(items[i]) == Ok(ss[i]);
    FirstInsertWins(db, ss, accepts, j);
  }

  /** The body of the `try` for one file: the sections are bound, then each of the ten
      stages runs and is committed; the first stage that raises is rolled back and ends
      the file. */
  method LoadFile(conn: Connection, doc: Option<Value>, parse: string -> Option<real>) returns (loaded: bool)
    requires conn.pending == conn.committed
    modifies conn
    ensures conn.committed == ProcessFile(old(conn.committed), doc, parse, conn.accepts).db
    ensures conn.pending == conn.committed
    ensures loaded == ProcessFile(old(conn.committed), doc, parse, conn.accepts).loaded
  {
    if doc.None? {
      conn.Rollback();
      return false;
    }
    var sections := ExtractSections(doc.value);
    if sections.Err? {
      conn.Rollback();
      return false;
    }
    var x := sections.value;
    ghost var plan := Plan(x, parse);
    var rows := EquityRows(x, parse);
    loaded := LoadEquityDetails(conn, rows, plan);
    if !loaded {
      return;
    }
    loaded := LoadCorporateInfo(conn, x, plan);
  }

  /** Runs stage `i` of the file and commits it, or rolls it back when it raises. */
  method StageEnd(conn: Connection, ok: bool, ghost start: Db, ghost plan: seq<Outcome<seq<Insert>>>, ghost i: nat)
    requires i < |plan| && conn.committed == start
    requires ok <==> RunStage(start, plan[i], conn.accepts).Some?
    requires ok ==> conn.pending == RunStage(start, plan[i], conn.accepts).value
    modifies conn
    ensures conn.pending == conn.committed
    ensures ok ==> RunFrom(start, plan, i, conn.accepts) == RunFrom(conn.committed, plan, i + 1, conn.accepts)
    ensures !ok ==> RunFrom(start, plan, i, conn.accepts) == FileResult(conn.committed, false)
  {
    if ok {
      conn.Commit();
    } else {
      conn.Rollback();
    }
  }

  /** One stage of the upsert or single-row kind: its INSERT, then the commit, or the
      rollback when it raises. */
  method SingleStage(conn: Connection, row: Outcome<Insert>, ghost plan: seq<Outcome<seq<Insert>>>, ghost i: nat)
    returns (ok: bool)
    requires i < |plan| && plan[i] == Single(row) && conn.pending == conn.committed
    modifies conn
    ensures conn.pending == conn.committed
    ensures ok ==> RunFrom(old(conn.committed), plan, i, conn.accepts) == RunFrom(conn.committed, plan, i + 1, conn.accepts)
    ensures !ok ==> RunFrom(old(conn.committed), plan, i, conn.accepts) == FileResult(conn.committed, false)
  {
    ghost var c := conn.committed;
    ok := InsertOne(conn, row);
    StageEnd(conn, ok, c, plan, i);
  }

  /** One stage of the loop kind: the loop's INSERTs, then the commit, or the rollback
      when one of them raises. */
  method EachStage<A>(conn: Connection, items: Outcome<seq<A>>, row: A -> Outcome<Insert>,
                      ghost plan: seq<Outcome<seq<Insert>>>, ghost i: nat)
    returns (ok: bool)
    requires i < |plan| && plan[i] == EachRow(items, row) && conn.pending == conn.committed
    modifies conn
    ensures conn.pending == conn.committed
    ensures ok ==> RunFrom(old(conn.committed), plan, i, conn.accepts) == RunFrom(conn.committed, plan, i + 1, conn.accepts)
    ensures !ok ==> RunFrom(old(conn.committed), plan, i, conn.accepts) == FileResult(conn.committed, false)
  {
    ghost var c := conn.committed;
    ok := InsertEach(conn, items, row);
    StageEnd(conn, ok, c, plan, i);
  }

  /** The shareholding stage: the date loop, then the commit, or the rollback when one
      of its INSERTs raises. */
  method ShareholdingStage(conn: Connection, x: Sections, ghost plan: seq<Outcome<seq<Insert>>>, ghost i: nat)
    returns (ok: bool)
    requires i < |plan| && plan[i] == ShareholdingRows(x) && conn.pending == conn.committed
    modifies conn
    ensures conn.pending == conn.committed
    ensures ok ==> RunFrom(old(conn.committed), plan, i, conn.accepts) == RunFrom(conn.committed, plan, i + 1, conn.accepts)
    ensures !ok ==> RunFrom(old(conn.committed), plan, i, conn.accepts) == FileResult(conn.committed, false)
  {
    ghost var c := conn.committed;
    ok := InsertShareholdings(conn, x);
    StageEnd(conn, ok, c, plan, i);
  }

  /** Stages 0 to 5: equity_info, equity_metadata, equity_price_info,
      equity_industry_info, trade_info and security_wise_dp, whose rows are `rows`. */
  method LoadEquityDetails(conn: Connection, rows: seq<Outcome<Insert>>, ghost plan: seq<Outcome<seq<Insert>>>)
    returns (loaded: bool)
    requires |plan| == |StageTables| && |rows| == 6 && conn.pending == conn.committed
    requires forall i :: 0 <= i < 6 ==> plan[i] == Single(rows[i])
    modifies conn
    ensures conn.pending == conn.committed
    ensures loaded ==> RunFrom(old(conn.committed), plan, 0, conn.accepts) == RunFrom(conn.committed, plan, 6, conn.accepts)
    ensures !loaded ==> RunFrom(old(conn.committed), plan, 0, conn.accepts) == FileResult(conn.committed, false)
  {
    loaded := SingleStage(conn, rows[0], plan, 0);
    if !loaded { return; }
    loaded := SingleStage(conn, rows[1], plan, 1);
    if !loaded { return; }
    loaded := SingleStage(conn, rows[2], plan, 2);
    if !loaded { return; }
    loaded := SingleStage(conn, rows[3], plan, 3);
    if !loaded { return; }
    loaded := SingleStage(conn, rows[4], plan, 4);
    if !loaded { return; }
    loaded := SingleStage(conn, rows[5], plan, 5);
  }

  /** Stages 6 to 9: the loops over corporate actions, shareholding dates, financial
      results and board meetings. */
  method LoadCorporateInfo(conn: Connection, x: Sections, ghost plan: seq<Outcome<seq<Insert>>>)
    returns (loaded: bool)
    requires |plan| == |StageTables| && conn.pending == conn.committed
    requires plan[6] == CorporateActionRows(x) && plan[7] == ShareholdingRows(x)
    requires plan[8] == FinancialResultRows(x) && plan[9] == BoardMeetingRows(x)
    modifies conn
    ensures conn.pending == conn.committed
    ensures RunFrom(old(conn.committed), plan, 6, conn.accepts) == FileResult(conn.committed, loaded)
  {
    loaded := EachStage(conn, Iterate(x.corporateActions), CorporateActionRow, plan, 6);
    if !loaded { return; }
    loaded := ShareholdingStage(conn, x, plan, 7);
    if !loaded { return; }
    loaded := EachStage(conn, Iterate(x.financialResults), FinancialResultRowOf(x.symbol), plan, 8);
    if !loaded { return; }
    loaded := EachStage(conn, Iterate(x.boardMeetings), BoardMeetingRow, plan, 9);
  }

  /** The database after stages `0..k` of `plan` have all got through, or None if one
      of them raises. */
  function Committed(db: Db, plan: seq<Outcome<seq<Insert>>>, k: nat, accepts: Insert -> bool): Option<Db>
    requires k <= |plan|
  {
    if k == 0 then Some(db)
    else match Committed(db, plan, k - 1, accepts)
      case None => None
      case Some(d) => RunStage(d, plan[k - 1], accepts)
  }

  /** Commits are per stage: a file stops at some stage `k`; what it leaves is exactly the
      work of the stages before `k`, all of which got through; stage `k` itself raised,
      unless `k` is the end and the file loaded. */
  lemma {:induction false} RunFromOutcome(db: Db, plan: seq<Outcome<seq<Insert>>>, i: nat, d: Db, accepts: Insert -> bool)
    returns (k: nat)
    requires i <= |plan| && Committed(db, plan, i, accepts) == Some(d)
    ensures i <= k <= |plan|
    ensures Committed(db, plan, k, accepts) == Some(RunFrom(d, plan, i, accepts).db)
    ensures RunFrom(d, plan, i, accepts).loaded <==> k == |plan|
    ensures k < |plan| ==> RunStage(RunFrom(d, plan, i, accepts).db, plan[k], accepts).None?
    decreases |plan| - i
  {
    if i == |plan| {
      k := i;
    } else {
      match RunStage(d, plan[i], accepts)
      case None =>
        k := i;
      case Some(e) =>
        k := RunFromOutcome(db, plan, i + 1, e, accepts);
    }
  }

  /** The same from the start of a file. */
  lemma FileOutcome(db: Db, plan: seq<Outcome<seq<Insert>>>, accepts: Insert -> bool) returns (k: nat)
    ensures k <= |plan|
    ensures Committed(db, plan, k, accepts) == Some(RunFrom(db, plan, 0, accepts).db)
    ensures RunFrom(db, plan, 0, accepts).loaded <==> k == |plan|
    ensures k < |plan| ==> RunStage(RunFrom(db, plan, 0, accepts).db, plan[k], accepts).None?
  {
    k := RunFromOutcome(db, plan, 0, db, accepts);
  }

  /** A file that cannot be read, or that lacks one of the sections, raises before any
      write and leaves the database as it was. */
  lemma UnreadableFileWritesNothing(db: Db, doc: Option<Value>, parse: string -> Option<real>, accepts: Insert -> bool)
    requires doc.None? || ExtractSections(doc.value).Err?
    ensures ProcessFile(db, doc, parse, accepts) == FileResult(db, false)
  {
  }

  /** Committed stages never remove a row, never change a row of an insert-if-absent
      table, and keep the key constraints. */
  ghost predicate Keeps(db: Db, d: Db) {
    && db.Keys <= d.Keys
    && (forall k :: k in db && PolicyOf(k.table) == InsertIfAbsent ==> d[k] == db[k])
    && (Integrity(db) ==> Integrity(d))
  }

  lemma KeepsTransitive(a: Db, b: Db, c: Db)
    requires Keeps(a, b) && Keeps(b, c)
    ensures Keeps(a, c)
  {
  }

  lemma {:induction false} RunStageKeeps(db: Db, stage: Outcome<seq<Insert>>, accepts: Insert -> bool)
    requires RunStage(db, stage, accepts).Some?
    ensures Keeps(db, RunStage(db, stage, accepts).value)
  {
    var d := RunStage(db, stage, accepts).value;
    ApplyAllFrame(db, stage.value, accepts);
    forall k | k in db && PolicyOf(k.table) == InsertIfAbsent
      ensures d[k] == db[k]
    {
      ApplyAllKeepsInsertIfAbsentRows(db, stage.value, accepts, k);
    }
    if Integrity(db) {
      ApplyAllIntegrity(db, stage.value, accepts);
    }
  }

  lemma {:induction false} RunFromKeeps(db: Db, plan: seq<Outcome<seq<Insert>>>, i: nat, accepts: Insert -> bool)
    requires i <= |plan|
    ensures Keeps(db, RunFrom(db, plan, i, accepts).db)
    decreases |plan| - i
  {
    if i < |plan| && RunStage(db, plan[i], accepts).Some? {
      var d := RunStage(db, plan[i], accepts).value;
      RunStageKeeps(db, plan[i], accepts);
      RunFromKeeps(d, plan, i + 1, accepts);
      KeepsTransitive(db, d, RunFrom(d, plan, i + 1, accepts).db);
    }
  }

  /** Processing a file, whether it loads or not, keeps every existing row, leaves the
      insert-if-absent rows as they were, and keeps the key constraints. */
  lemma ProcessFileKeeps(db: Db, doc: Option<Value>, parse: string -> Option<real>, accepts: Insert -> bool)
    ensures Keeps(db, ProcessFile(db, doc, parse, accepts).db)
  {
    if doc.Some? && ExtractSections(doc.value).Ok? {
      var plan := Plan(ExtractSections(doc.value).value, parse);
      RunFromKeeps(db, plan, 0, accepts);
      assert ProcessFile(db, doc, parse, accepts) == RunFrom(db, plan, 0, accepts);
    }
  }

  /** One directory entry: its name and its document, None when reading or decoding the
      file raises. */
  datatype Entry = Entry(name: string, doc: Option<Value>)

  /** `filename.endswith('.json')`. */
  predicate IsJsonName(name: string) {
    |name| >= 5 && name[|name| - 5..] == ".json"
  }

  /** What a run over the directory leaves committed, and the files it reported as
      failed, in order. */
  datatype Batch = Batch(db: Db, failed: seq<string>)

  /** The loop over the directory: entries whose name does not end in `.json` are
      skipped; each other file is processed on what the earlier ones left. */
  function LoadAll(db: Db, entries: seq<Entry>, parse: string -> Option<real>, accepts: Insert -> bool): Batch
    decreases |entries|
  {
    if entries == [] then Batch(db, [])
    else
      var b := LoadAll(db, entries[..|entries| - 1], parse, accepts);
      var e := entries[|entries| - 1];
      if !IsJsonName(e.name) then b
      else
        var f := ProcessFile(b.db, e.doc, parse, accepts);
        Batch(f.db, if f.loaded then b.failed else b.failed + [e.name])
  }

  /** The `.json` entries, in order. */
  function JsonEntries(entries: seq<Entry>): (r: seq<Entry>)
    ensures forall i :: 0 <= i < |r| ==> IsJsonName(r[i].name) && r[i] in entries
    ensures forall e :: e in entries && IsJsonName(e.name) ==> e in r
    decreases |entries|
  {
    if entries == [] then []
    else
      var rest := JsonEntries(entries[..|entries| - 1]);
      var e := entries[|entries| - 1];
      assert entries == entries[..|entries| - 1] + [e];
      assert forall x :: x in entries[..|entries| - 1] ==> x in entries;
      if IsJsonName(e.name) then rest + [e] else rest
  }

  /** The filter keeps the order of the directory: the `.json` entries of `a + b` are
      those of `a` followed by those of `b`. */
  lemma {:induction false} JsonEntriesConcat(a: seq<Entry>, b: seq<Entry>)
    ensures JsonEntries(a + b) == JsonEntries(a) + JsonEntries(b)
    decreases |b|
  {
    if b == [] {
      assert a + b == a;
    } else {
      var init := b[..|b| - 1];
      JsonEntriesConcat(a, init);
      assert (a + b)[..|a + b| - 1] == a + init;
      assert (a + b)[|a + b| - 1] == b[|b| - 1];
    }
  }

  /** Files whose name does not end in `.json` are never opened: the run is the run over
      the `.json` entries alone. */
  lemma {:induction false} SkipsOtherFiles(db: Db, entries: seq<Entry>, parse: string -> Option<real>, accepts: Insert -> bool)
    ensures LoadAll(db, entries, parse, accepts) == LoadAll(db, JsonEntries(entries), parse, accepts)
    decreases |entries|
  {
    if entries != [] {
      var init := entries[..|entries| - 1];
      var e := entries[|entries| - 1];
      SkipsOtherFiles(db, init, parse, accepts);
      if IsJsonName(e.name) {
        var j := JsonEntries(init) + [e];
        assert j[..|j| - 1] == JsonEntries(init);
      }
    }
  }

  /** A run over the directory keeps every existing row, leaves insert-if-absent rows as
      they were, and keeps the key constraints; every file it reports is a `.json` entry
      of the directory. */
  lemma {:induction false} LoadAllKeeps(db: Db, entries: seq<Entry>, parse: string -> Option<real>, accepts: Insert -> bool)
    ensures Keeps(db, LoadAll(db, entries, parse, accepts).db)
    ensures forall n :: n in LoadAll(db, entries, parse, accepts).failed ==>
              IsJsonName(n) && exists e :: e in entries && e.name == n
    decreases |entries|
  {
    if entries != [] {
      var init := entries[..|entries| - 1];
      var e := entries[|entries| - 1];
      LoadAllKeeps(db, init, parse, accepts);
      var b := LoadAll(db, init, parse, accepts);
      assert forall x :: x in init ==> x in entries;
      if IsJsonName(e.name) {
        ProcessFileKeeps(b.db, e.doc, parse, accepts);
        KeepsTransitive(db, b.db, ProcessFile(b.db, e.doc, parse, accepts).db);
      }
    }
  }

  /** One more entry of the directory. */
  lemma LoadAllStep(db: Db, entries: seq<Entry>, i: nat, parse: string -> Option<real>, accepts: Insert -> bool)
    requires i < |entries|
    ensures var b := LoadAll(db, entries[..i], parse, accepts);
            var f := ProcessFile(b.db, entries[i].doc, parse, accepts);
            LoadAll(db, entries[..i + 1], parse, accepts)
              == if !IsJsonName(entries[i].name) then b
                 else Batch(f.db, if f.loaded then b.failed else b.failed + [entries[i].name])
  {
    assert entries[..i + 1][..i] == entries[..i];
  }

  /** `for filename in os.listdir(folder_path)`, with the `try`/`except` around each
      `.json` file: an error is reported, rolled back, and the loop moves on. */
  method LoadDirectory(conn: Connection, entries: seq<Entry>, parse: string -> Option<real>) returns (failed: seq<string>)
    requires conn.pending == conn.committed
    modifies conn
    ensures Batch(conn.committed, failed) == LoadAll(old(conn.committed), entries, parse, conn.accepts)
    ensures conn.pending == conn.committed
  {
    ghost var start := conn.committed;
    failed := [];
    var i := 0;
    while i < |entries|
      invariant i <= |entries| && conn.pending == conn.committed
      invariant Batch(conn.committed, failed) == LoadAll(start, entries[..i], parse, conn.accepts)
    {
      LoadAllStep(start, entries, i, parse, conn.accepts);
      if IsJsonName(entries[i].name) {
        var loaded := LoadFile(conn, entries[i].doc, parse);
        if !loaded {
          failed := failed + [entries[i].name];
        }
      }
      i := i + 1;
    }
    assert entries[..i] == entries;
  }
}
