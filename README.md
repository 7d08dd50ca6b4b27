# TheStrat bar classifier and ticker registry, in Dafny

This project models two parts of a Streamlit stock screener:

- **The TheStrat classifier** `classify_last_two_bars` (lib/strat.py). It compares the last row of a daily bar table with the row before it. It labels the bar `"1"` (strictly inside the previous range), `"3"` (strictly breaks both the previous high and the previous low), `"2u"` (breaks the high only) or `"2d"` (breaks the low only). It returns `"—"` for a missing table, for fewer than two rows, and for every case where a bound ties the previous bar's and neither side is broken.
- **The CSV ticker registry** of lib/db.py. The file `.data/tickers.csv` holds rows of `symbol, name, sector, industry, is_active`. `load_csv` fills in missing columns, keeps the five columns, upper-cases and trims every symbol, and defaults a missing `is_active` to true. `upsert_ticker` normalises its key, then loads the table, updates every row holding the key (or appends one row), and saves. `delete_ticker` normalises its key, then loads, filters out every row holding the key, and saves. An empty key leaves the file untouched.

Files:

- `wrappers.dfy` (`Wrappers`): the `Option` type, which stands for Python's `None`.
- `strat.dfy` (`Strat`): bars, labels and the classifier. It also has a reference table that looks the label up from how the current high and low compare with the previous ones. The classifier is proved equal to that table.
- `symbols.dfy` (`Symbols`): ASCII `upper()` and `strip()`, and symbol normalisation with its fixpoint, idempotence and emptiness lemmas.
- `registry.dfy` (`Registry`): the table as a `seq<Record>`. `Upserted` is update-or-append and `Without` is the delete filter. Lemmas cover their frame conditions, lengths, idempotence, symbol uniqueness, and how the two combine.
- `csvstore.dfy` (`CsvStore`): the file as a frame of named columns. It holds `LoadCsv` (a method with the column-filling loop, proved against `Loaded`), the save function `Saved` with the load-after-save round trip, the file-level `UpsertTicker`/`DeleteTicker` and their idempotence. The class `TickerStore` holds the file and has the methods `ReadTickers`, `Upsert` and `Delete`.

Two points of the classifier's own documentation (the comment at lib/strat.py:3-5 and the docstring at lib/strat.py:10) need stating precisely:

- Every comparison is strict. A bar that ties a bound of the previous bar and breaks neither side gets `"—"`, not `"1"` (lib/strat.py:18, 27). So do identical bars.
- The docstring lists four results. `"—"` is also returned (lib/strat.py:13, 27), and `Label.Text` lists all five.

Inputs from I/O are parameters:

- The bar table is an `Option<seq<Bar>>` argument.
- The CSV file is the `file` field of `TickerStore`. It is `None` when the file does not exist, otherwise the frame `pd.read_csv` would build from it.

## Model

| member | source | states |
|---|---|---|
| `Strat.Label.Text` | lib/strat.py:19-27 | the result is one of "1", "2u", "2d", "3", "—", and it is "—" exactly for the unlabelled case |
| `Strat.Classify` | lib/strat.py:16-27 | iff characterisation of each label: "1" iff high and low both strictly inside; "3" iff both strictly broken; "2u" iff high broken and low not broken; "2d" iff low broken and high not broken; "—" iff neither broken and some bound tied |
| `Strat.LastTwoBarsLabel` | lib/strat.py:12-15 | a missing table, or one of fewer than two rows, gets no label |
| `Strat.ClassifyLastTwoBars` | lib/strat.py:7-27 | the returned string is always one of the five labels, and "—" for a missing or short table |
| `Strat.ClassifyMatchesTable` | lib/strat.py:16-27 | the if-chain equals the label read from the 3x3 table of (high compared, low compared) on every pair of bars |
| `Strat.ConditionsDisjoint` | lib/strat.py:16-26 | the inside, 2u and 2d conditions exclude each other and the both-broken case, so the order of the tests does not matter |
| `Strat.TiesAreUnlabelled` | lib/strat.py:18-27 | a bar that ties a previous bound and breaks neither gets "—", not "1" |
| `Strat.IdenticalBarsUnlabelled` | lib/strat.py:16-27 | two identical bars get "—" |
| `Strat.OnlyHighAndLowMatter` | lib/strat.py:16-18 | Open and Close never change the label |
| `Strat.OnlyLastTwoBarsMatter` | lib/strat.py:14-15 | any rows before the last two leave the label that of the last two |
| `Strat.SameLastTwoBarsSameLabel` | lib/strat.py:14-15 | two tables ending in the same two rows get the same string |
| `Strat.TextInjective` | lib/strat.py:19-27 | distinct labels are distinct strings |
| `Strat.WorkedExamples` | lib/strat.py:12-27 | (10,5) then (9,6) is "1", (11,4) is "3", (12,6) is "2u", (9,3) is "2d", an identical bar is "—"; one row, no rows and None are "—" |
| `Symbols.UpperChar` | lib/db.py:63 | the result is never a lower-case letter; letters shift by 32; everything else, whitespace included, is unchanged |
| `Symbols.Upper` | lib/db.py:63 | same length, and each character is upper-cased in place |
| `Symbols.TrimStart` | lib/db.py:63 | the result is a suffix of the input, everything dropped is whitespace, and it does not start with whitespace |
| `Symbols.TrimEnd` | lib/db.py:63 | the result is a prefix of the input, everything dropped is whitespace, and it does not end with whitespace |
| `Symbols.Strip` | lib/db.py:22 | the result is a contiguous piece of the input with only whitespace cut off before and after it, and it neither starts nor ends with whitespace |
| `Symbols.NormalizeSymbol` | lib/db.py:22 | the result has no lower-case letter and no whitespace at either end, and is no longer than the input |
| `Symbols.NormalizeKey` | lib/db.py:63 | a missing symbol normalises to ""; the result is in normal form |
| `Symbols.UpperOfNormal` | lib/db.py:63 | upper-casing a string with no lower-case letter changes nothing |
| `Symbols.NormalizeFixpoint` | lib/db.py:22 | normalisation leaves a symbol unchanged iff it is already in normal form |
| `Symbols.NormalizeIdempotent` | lib/db.py:63 | normalising twice equals normalising once |
| `Symbols.NormalizeEmpty` | lib/db.py:63-65 | a symbol normalises to the empty key iff it is empty or all whitespace |
| `Symbols.NormalizeExamples` | lib/db.py:63 | " ab " gives "AB"; tab and newline give ""; None gives "" |
| `Registry.HasSymbol` | lib/db.py:79 | a key is among the symbols exactly when the number of rows holding it is positive |
| `Registry.WithFields` | lib/db.py:80 | the symbol is kept; name, sector and industry become the given texts and is_active the given flag |
| `Registry.NewRow` | lib/db.py:82-84 | the appended row holds the key and already carries the upserted values |
| `Registry.Assigned` | lib/db.py:80 | same length; each row holding the key gets the four new values, every other row is unchanged in place |
| `Registry.Upserted` | lib/db.py:79-84 | length unchanged if the key is present, otherwise one more; the first rows are updated or kept as by the masked assignment; an absent key gets the new row at the end; the key is present afterwards |
| `Registry.Without` | lib/db.py:96 | no longer than the input, no kept row holds the key, every kept row was in the input, and every input row without the key is kept |
| `Registry.UpsertPresent` | lib/db.py:79-80 | a present key keeps the length, writes the values on every row holding it, and leaves every other row identical in place |
| `Registry.UpsertAbsent` | lib/db.py:81-84 | an absent key gives exactly the old table followed by one new row |
| `Registry.UpsertIdempotent` | lib/db.py:78-85 | upserting the same values twice equals upserting once |
| `Registry.UpsertKeepsUnique` | lib/db.py:79-84 | a table with unique symbols keeps them unique after an upsert |
| `Registry.UpsertSymbols` | lib/db.py:79-84 | the symbols after an upsert are exactly the old symbols plus the key |
| `Registry.WithoutAppend` | lib/db.py:96 | the filter distributes over concatenation, so the kept rows keep their relative order |
| `Registry.WithoutSingle` | lib/db.py:96 | one row is kept exactly when its symbol differs from the key |
| `Registry.WithoutLength` | lib/db.py:96 | the length drops by exactly the number of rows holding the key |
| `Registry.WithoutAbsent` | lib/db.py:96 | a table without the key is unchanged by the filter |
| `Registry.WithoutIdempotent` | lib/db.py:96 | afterwards no row holds the key, and filtering again changes nothing |
| `Registry.WithoutKeepsUnique` | lib/db.py:96 | a table with unique symbols keeps them unique after the filter |
| `Registry.WithoutAssigned` | lib/db.py:80 | filtering after the masked assignment equals filtering alone |
| `Registry.DeleteAfterUpsert` | lib/db.py:78-84 | deleting a key after upserting it leaves what deleting it alone leaves |
| `Registry.UpsertAfterDelete` | lib/db.py:81-84 | upserting a key after deleting it appends one new row to the filtered table |
| `CsvStore.CellText` | lib/db.py:22 | `astype(str)`: a text cell gives its text, a boolean "True" or "False", and a missing cell "None" (pandas renders a NaN cell as "nan", see Left out) |
| `CsvStore.LoadedRow` | lib/db.py:15-24 | one loaded row: its symbol is in normal form, a missing is_active is true, and a missing name, sector or industry column reads as None |
| `CsvStore.CellAt` | lib/db.py:15-17 | a column the file lacks reads as None on every row |
| `CsvStore.ActiveFlag` | lib/db.py:24 | a missing is_active becomes true; a boolean keeps its value |
| `CsvStore.Loaded` | lib/db.py:12-25 | no file gives an empty table; otherwise one row per file row; every symbol is the normalised text of its cell and in normal form; a missing is_active is true; a missing name, sector or industry column reads as None |
| `CsvStore.Saved` | lib/db.py:27-28 | the saved frame has exactly the five columns of CSV_COLUMNS (lib/db.py:10, the constant `CsvColumns`) and one row per table row, under the read-back assumption of Left out |
| `CsvStore.LoadSaved` | lib/db.py:12-28 | loading a saved table gives it back when its symbols are in normal form, under the read-back assumption of Left out |
| `CsvStore.LoadSaveLoad` | lib/db.py:12-28 | a loaded table survives a save and a second load unchanged, under the read-back assumption of Left out |
| `CsvStore.LoadCsv` | lib/db.py:12-25 | the loop that adds each missing column as None, then the projection and normalisation, yields `Loaded` of the file |
| `CsvStore.UpsertTicker` | lib/db.py:62-85 | an empty key leaves the file unchanged; otherwise a file is written whose loaded table is the old loaded table with every row holding the key updated, or one row appended, every other row kept in place, so it holds the key (under the read-back assumption of Left out) |
| `CsvStore.DeleteTicker` | lib/db.py:86-97 | an empty key leaves the file unchanged; otherwise a file is written whose loaded table is the old loaded table without the rows holding the key, the rest in order, so no row holds the key (under the read-back assumption of Left out) |
| `CsvStore.UpsertKeepsNormal` | lib/db.py:78-84 | an upsert with a normalised key keeps every symbol in normal form |
| `CsvStore.WithoutKeepsNormal` | lib/db.py:95-96 | the filter keeps every symbol in normal form |
| `CsvStore.UpsertTickerIdempotent` | lib/db.py:62-85 | on the file, upserting the same ticker twice equals upserting it once, under the read-back assumption of Left out |
| `CsvStore.DeleteTickerIdempotent` | lib/db.py:86-97 | on the file, deleting the same ticker twice equals deleting it once, under the read-back assumption of Left out |
| `CsvStore.UpsertTickerLength` | lib/db.py:78-85 | on the file, an upsert keeps the loaded length for a present key and adds one row for an absent key, under the read-back assumption of Left out |
| `CsvStore.DeleteTickerLength` | lib/db.py:94-97 | on the file, a delete drops exactly the loaded rows holding the key, under the read-back assumption of Left out |
| `CsvStore.TickerStore.constructor` | lib/db.py:6-8 | the store starts with the given file contents |
| `CsvStore.TickerStore.ReadTickers` | lib/db.py:49-60 | without a remote client, reading returns the loaded table, all symbols in normal form |
| `CsvStore.TickerStore.Upsert` | lib/db.py:62-85 | the file afterwards is `UpsertTicker` of the file before |
| `CsvStore.TickerStore.Delete` | lib/db.py:86-97 | the file afterwards is `DeleteTicker` of the file before |

## Left out

- The Supabase branch of lib/db.py (`get_supabase_client`, the remote-client branches of `read_tickers`, `upsert_ticker` and `delete_ticker`, lib/db.py:33-59, 66-76, 91-93). These are calls into a remote table service, configuration secrets and environment variables, with no visible semantics. The model is the code with no client configured.
- File I/O. `DATA_DIR.mkdir`, `CSV_PATH.exists()`, the parsing in `pd.read_csv` and the printing in `to_csv` are not modelled. The file is the frame that reading it would give.
- The read-back assumption: `CsvStore.Saved` assumes that every value `to_csv` writes is read back by `pd.read_csv` as written. This is false for some values. By default `pd.read_csv` reads an empty field and the texts `NA`, `N/A`, `#N/A`, `#NA`, `NULL`, `<NA>`, `None`, `nan` and `NaN` (among others) as NaN, and `astype(str)` then renders NaN as "nan" (lib/db.py:14, 22). So `upsert_ticker("na")` saves the symbol "NA", the next `load_csv` reads it back as "NAN", and a second `upsert_ticker("na")` appends a second row instead of updating the first (lib/db.py:79-84). Likewise the default `name=""`, `sector=""` and `industry=""` read back as NaN, not as "". The following hold only under the assumption: `CsvStore.LoadSaved`, `CsvStore.LoadSaveLoad`, the key-present and loaded-table clauses of `CsvStore.UpsertTicker` and `CsvStore.DeleteTicker`, `CsvStore.UpsertTickerIdempotent`, `CsvStore.DeleteTickerIdempotent`, `CsvStore.UpsertTickerLength` and `CsvStore.DeleteTickerLength`. They are exact for symbols and texts that pandas reads back as the same text: outside its NA strings, and in a column that pandas does not read wholly as numbers or booleans. For example, `upsert_ticker("0700")` with no file saves the symbol 0700; the next `pd.read_csv` reads the all-numeric symbol column as the integer 700, and `astype(str)` gives "700" (lib/db.py:14, 22). "0700" is then not among the symbols (lib/db.py:79), so a second `upsert_ticker("0700")` appends a second row (lib/db.py:82-84). Likewise a name column whose cells all look like numbers or booleans reads back changed (a lone name "007" reads as 7).
- `pd.read_csv` failures on an empty or malformed file are not modelled.
- pandas coercion beyond what is stated. An empty field in an existing column reads as NaN, and `astype(str)` renders NaN as "nan". The model treats every missing cell as None, rendered "None" as for a column added at lib/db.py:17. Type inference is not modelled: a cell is text, a boolean or missing.
- `CsvStore.ActiveFlag`: text cells use Python's truthiness of a string (non-empty means true). Other pandas dtypes and their truthiness are not modelled.
- `Symbols.Upper` and `Symbols.TrimStart`/`Symbols.TrimEnd` cover ASCII only. Unicode case mapping and non-ASCII whitespace are not modelled.
- `Strat.Classify`: prices are exact reals. Floating-point rounding and NaN are not modelled (every comparison with NaN is false, so a NaN bound counts as neither broken nor inside; the other bound alone decides between "2u"/"2d" and "—").
- The default arguments of `upsert_ticker` (`name=""`, `sector=""`, `industry=""`, `is_active=True`) are not modelled. Callers of `TickerStore.Upsert` pass every value.
- streamlit_app.py: a cached CSV load with an error stop and an added empty `Sub_Group` column. This is user-interface and I/O glue. streamlit_app.py is not part of this model.
