/**
 * The CSV branch of lib/db.py: `load_csv`, `save_csv`, `read_tickers`,
 * `upsert_ticker` and `delete_ticker` against the file `.data/tickers.csv`.
 * The file is modelled by the frame `pd.read_csv` would build from it: a map
 * from column name to column, all of one height. Parsing and printing CSV text
 * are not modelled.
 */
module CsvStore {
  import opened Wrappers
  import opened Symbols
  import opened Registry

  /** CSV_COLUMNS: the columns of the table, in order. */
  const CsvColumns: seq<string> := ["symbol", "name", "sector", "industry", "is_active"]

  /** A data frame as read from the file: named columns of `height` cells each. */
  datatype RawFrame = RawFrame(columns: map<string, seq<Cell>>, height: nat) {
    predicate Valid() {
      forall c :: c in columns ==> |columns[c]| == height
    }
  }

  /** The cell of column `c` on row `i`; a column the file lacks reads as None (lib/db.py:16-17). */
  function CellAt(frame: RawFrame, c: string, i: nat): (cell: Cell)
    requires frame.Valid() && i < frame.height
    ensures c !in frame.columns ==> cell == Null
  {
    if c in frame.columns then frame.columns[c][i] else Null
  }

  /** `astype(str)`: the text of a cell; None prints as "None", booleans as "True" and "False". */
  function CellText(cell: Cell): (s: string)
    ensures cell.Text? ==> s == cell.s
    ensures cell == Null ==> s == "None"
    ensures cell.Flag? ==> s == (if cell.b then "True" else "False")
  {
    match cell
    case Null => "None"
    case Text(s) => s
    case Flag(b) => if b then "True" else "False"
  }

  /** `fillna(True).astype(bool)`: a missing flag is true; text is true when non-empty. */
  function ActiveFlag(cell: Cell): (b: bool)
    ensures cell == Null ==> b
    ensures cell.Flag? ==> b == cell.b
  {
    match cell
    case Null => true
    case Text(s) => s != ""
    case Flag(b) => b
  }

  /** Row `i` of the frame after the column fill, the projection onto CSV_COLUMNS and the normalisation. */
  function LoadedRow(frame: RawFrame, i: nat): (row: Record)
    requires frame.Valid() && i < frame.height
    ensures IsNormal(row.symbol)
    ensures CellAt(frame, "is_active", i) == Null ==> row.isActive
    ensures "name" !in frame.columns ==> row.name == Null
    ensures "sector" !in frame.columns ==> row.sector == Null
    ensures "industry" !in frame.columns ==> row.industry == Null
  {
    Record(
      NormalizeSymbol(CellText(CellAt(frame, "symbol", i))),
      CellAt(frame, "name", i),
      CellAt(frame, "sector", i),
      CellAt(frame, "industry", i),
      ActiveFlag(CellAt(frame, "is_active", i)))
  }

  predicate ValidFile(file: Option<RawFrame>) {
    file.Some? ==> file.value.Valid()
  }

  /**
   * The table `load_csv` returns for a file (None: the file does not
   * exist). Every symbol is in normal form; a missing is_active is true;
   * name, sector and industry are the file's cells, None where it lacks the column.
   */
  function Loaded(file: Option<RawFrame>): (rows: seq<Record>)
    requires ValidFile(file)
    ensures file.None? ==> rows == []
    ensures file.Some? ==> |rows| == file.value.height
    ensures forall i :: 0 <= i < |rows| ==> IsNormal(rows[i].symbol)
    ensures file.Some? ==> forall i :: 0 <= i < |rows| ==>
      && rows[i].symbol == NormalizeSymbol(CellText(CellAt(file.value, "symbol", i)))
      && (CellAt(file.value, "is_active", i) == Null ==> rows[i].isActive)
      && ("name" !in file.value.columns ==> rows[i].name == Null)
      && ("sector" !in file.value.columns ==> rows[i].sector == Null)
      && ("industry" !in file.value.columns ==> rows[i].industry == Null)
  {
    match file
    case None => []
    case Some(frame) => seq(frame.height, i requires 0 <= i < frame.height => LoadedRow(frame, i))
  }

  /**
   * `save_csv`: the frame written for a table, exactly the five CSV columns,
   * as reading the file back would give it on the assumption that every value
   * reads back as written (pandas' NA strings and empty fields do not).
   */
  function Saved(rows: seq<Record>): (frame: RawFrame)
    ensures frame.Valid() && frame.height == |rows|
    ensures frame.columns.Keys == set c | c in CsvColumns
  {
    var n := |rows|;
    RawFrame(map[
      "symbol" := seq(n, i requires 0 <= i < n => Text(rows[i].symbol)),
      "name" := seq(n, i requires 0 <= i < n => rows[i].name),
      "sector" := seq(n, i requires 0 <= i < n => rows[i].sector),
      "industry" := seq(n, i requires 0 <= i < n => rows[i].industry),
      "is_active" := seq(n, i requires 0 <= i < n => Flag(rows[i].isActive))], n)
  }

  /** Every symbol of the table is in normal form, as after any load. */
  predicate AllNormal(rows: seq<Record>) {
    forall i :: 0 <= i < |rows| ==> IsNormal(rows[i].symbol)
  }

  /** Loading what was saved gives back the table, provided its symbols are in normal form. */
  lemma LoadSaved(rows: seq<Record>)
    requires AllNormal(rows)
    ensures Loaded(Some(Saved(rows))) == rows
  {
    var r := Loaded(Some(Saved(rows)));
    forall i | 0 <= i < |rows|
      ensures r[i] == rows[i]
    {
      SavedRow(rows, i);
      NormalizeFixpoint(rows[i].symbol);
    }
  }

  lemma SavedRow(rows: seq<Record>, i: nat)
    requires i < |rows|
    ensures LoadedRow(Saved(rows), i) == rows[i].(symbol := NormalizeSymbol(rows[i].symbol))
  {
    var frame := Saved(rows);
    assert CellAt(frame, "symbol", i) == Text(rows[i].symbol);
    assert CellAt(frame, "name", i) == rows[i].name;
    assert CellAt(frame, "sector", i) == rows[i].sector;
    assert CellAt(frame, "industry", i) == rows[i].industry;
    assert CellAt(frame, "is_active", i) == Flag(rows[i].isActive);
  }

  /** A table that was loaded is loaded again unchanged once saved. */
  lemma LoadSaveLoad(file: Option<RawFrame>)
    requires ValidFile(file)
    ensures Loaded(Some(Saved(Loaded(file)))) == Loaded(file)
  {
    LoadSaved(Loaded(file));
  }

  /**
   * `load_csv` on the frame `pd.read_csv` returns: add every missing
   * column as None (lib/db.py:15-17), keep CSV_COLUMNS (lib/db.py:18),
   * normalise the symbols and default is_active to true (lib/db.py:21-24).
   */
  method LoadCsv(file: Option<RawFrame>) returns (rows: seq<Record>)
    requires ValidFile(file)
    ensures rows == Loaded(file)
  {
    if file.None? {
      return [];
    }
    var frame := file.value;
    var n := frame.height;
    var columns := frame.columns;
    for k := 0 to |CsvColumns|
      invariant forall c :: c in columns ==> |columns[c]| == n
      invariant forall j :: 0 <= j < k ==> CsvColumns[j] in columns
      invariant forall c :: c in frame.columns ==> c in columns
      invariant forall c :: c in columns ==> forall i :: 0 <= i < n ==> columns[c][i] == CellAt(frame, c, i)
    {
      var c := CsvColumns[k];
      if c !in columns {
        columns := columns[c := seq(n, _ => Null)];
      }
    }
    assert CsvColumns[0] in columns && CsvColumns[1] in columns && CsvColumns[2] in columns
      && CsvColumns[3] in columns && CsvColumns[4] in columns;
    var symbols, names, sectors, industries, active :=
      columns["symbol"], columns["name"], columns["sector"], columns["industry"], columns["is_active"];
    rows := seq(n, i requires 0 <= i < n =>
      Record(NormalizeSymbol(CellText(symbols[i])), names[i], sectors[i], industries[i], ActiveFlag(active[i])));
    forall i | 0 <= i < n
      ensures rows[i] == LoadedRow(frame, i)
    {
      assert symbols[i] == CellAt(frame, "symbol", i);
      assert active[i] == CellAt(frame, "is_active", i);
    }
  }

  /** The file after `upsert_ticker`: unchanged for an empty key, otherwise load, update or append, save. */
  function UpsertTicker(file: Option<RawFrame>, symbol: Option<string>, f: Fields): (r: Option<RawFrame>)
    requires ValidFile(file)
    ensures ValidFile(r)
    ensures NormalizeKey(symbol) == "" ==> r == file
    ensures NormalizeKey(symbol) != "" ==> r.Some? && HasSymbol(Loaded(r), NormalizeKey(symbol))
    ensures NormalizeKey(symbol) != "" ==> Loaded(r) == Upserted(Loaded(file), NormalizeKey(symbol), f)
  {
    var key := NormalizeKey(symbol);
    if key == "" then file
    else
      var rows := Upserted(Loaded(file), key, f);
      UpsertKeepsNormal(Loaded(file), key, f);
      LoadSaved(rows);
      Some(Saved(rows))
  }

  /** The file after `delete_ticker`: unchanged for an empty key, otherwise load, filter, save. */
  function DeleteTicker(file: Option<RawFrame>, symbol: Option<string>): (r: Option<RawFrame>)
    requires ValidFile(file)
    ensures ValidFile(r)
    ensures NormalizeKey(symbol) == "" ==> r == file
    ensures NormalizeKey(symbol) != "" ==> r.Some? && !HasSymbol(Loaded(r), NormalizeKey(symbol))
    ensures NormalizeKey(symbol) != "" ==> Loaded(r) == Without(Loaded(file), NormalizeKey(symbol))
  {
    var key := NormalizeKey(symbol);
    if key == "" then file
    else
      var rows := Without(Loaded(file), key);
      WithoutKeepsNormal(Loaded(file), key);
      LoadSaved(rows);
      WithoutIdempotent(Loaded(file), key);
      Some(Saved(rows))
  }

  lemma UpsertKeepsNormal(rows: seq<Record>, key: string, f: Fields)
    requires AllNormal(rows) && IsNormal(key)
    ensures AllNormal(Upserted(rows, key, f))
  {
  }

  lemma WithoutKeepsNormal(rows: seq<Record>, key: string)
    requires AllNormal(rows)
    ensures AllNormal(Without(rows, key))
  {
    var w := Without(rows, key);
    forall i | 0 <= i < |w| ensures IsNormal(w[i].symbol) {
      assert w[i] in rows;
    }
  }

  /** On the file, upserting the same ticker twice is upserting it once. */
  lemma UpsertTickerIdempotent(file: Option<RawFrame>, symbol: Option<string>, f: Fields)
    requires ValidFile(file)
    ensures UpsertTicker(UpsertTicker(file, symbol, f), symbol, f) == UpsertTicker(file, symbol, f)
  {
    var key := NormalizeKey(symbol);
    if key != "" {
      var rows := Upserted(Loaded(file), key, f);
      UpsertKeepsNormal(Loaded(file), key, f);
      LoadSaved(rows);
      UpsertIdempotent(Loaded(file), key, f);
    }
  }

  /** On the file, deleting the same ticker twice is deleting it once. */
  lemma DeleteTickerIdempotent(file: Option<RawFrame>, symbol: Option<string>)
    requires ValidFile(file)
    ensures DeleteTicker(DeleteTicker(file, symbol), symbol) == DeleteTicker(file, symbol)
  {
    var key := NormalizeKey(symbol);
    if key != "" {
      var rows := Without(Loaded(file), key);
      WithoutKeepsNormal(Loaded(file), key);
      LoadSaved(rows);
      WithoutIdempotent(Loaded(file), key);
    }
  }

  /** On the file, an upsert keeps the loaded length for a present symbol and adds one row for an absent one. */
  lemma UpsertTickerLength(file: Option<RawFrame>, symbol: Option<string>, f: Fields)
    requires ValidFile(file) && NormalizeKey(symbol) != ""
    ensures |Loaded(UpsertTicker(file, symbol, f))| ==
      |Loaded(file)| + (if HasSymbol(Loaded(file), NormalizeKey(symbol)) then 0 else 1)
  {
    var rows := Upserted(Loaded(file), NormalizeKey(symbol), f);
    UpsertKeepsNormal(Loaded(file), NormalizeKey(symbol), f);
    LoadSaved(rows);
  }

  /** On the file, a delete drops exactly the loaded rows holding the key. */
  lemma DeleteTickerLength(file: Option<RawFrame>, symbol: Option<string>)
    requires ValidFile(file) && NormalizeKey(symbol) != ""
    ensures |Loaded(DeleteTicker(file, symbol))| ==
      |Loaded(file)| - CountSymbol(Loaded(file), NormalizeKey(symbol))
  {
    var rows := Without(Loaded(file), NormalizeKey(symbol));
    WithoutKeepsNormal(Loaded(file), NormalizeKey(symbol));
    LoadSaved(rows);
    WithoutLength(Loaded(file), NormalizeKey(symbol));
  }

  /** The CSV file `.data/tickers.csv`, and the operations of lib/db.py that read and rewrite it. */
  class TickerStore {
    /** The frame the file holds; None while the file does not exist. */
    var file: Option<RawFrame>

    ghost predicate Valid()
      reads this
    {
      ValidFile(file)
    }

    constructor (file0: Option<RawFrame>)
      requires ValidFile(file0)
      ensures Valid() && file == file0
    {
      file := file0;
    }

    /** `read_tickers` without a remote client: `load_csv`. */
    method ReadTickers() returns (rows: seq<Record>)
      requires Valid()
      ensures rows == Loaded(file)
      ensures AllNormal(rows)
    {
      rows := LoadCsv(file);
    }

    /** `upsert_ticker` without a remote client. */
    method Upsert(symbol: Option<string>, name: string, sector: string, industry: string, isActive: bool)
      requires Valid()
      modifies this
      ensures Valid()
      ensures file == UpsertTicker(old(file), symbol, Fields(name, sector, industry, isActive))
    {
      var key := NormalizeKey(symbol);
      if key == "" {
        return;
      }
      var df := LoadCsv(file);
      var f := Fields(name, sector, industry, isActive);
      if HasSymbol(df, key) {
        df := Assigned(df, key, f);
      } else {
        df := df + [NewRow(key, f)];
      }
      assert df == Upserted(Loaded(file), key, f);
      file := Some(Saved(df));
    }

    /** `delete_ticker` without a remote client. */
    method Delete(symbol: Option<string>)
      requires Valid()
      modifies this
      ensures Valid()
      ensures file == DeleteTicker(old(file), symbol)
    {
      var key := NormalizeKey(symbol);
      if key == "" {
        return;
      }
      var df := LoadCsv(file);
      df := Without(df, key);
      file := Some(Saved(df));
    }
  }
}
