/**
 * The ticker table of lib/db.py with the file I/O stripped away: a sequence of
 * rows with the five CSV columns, the update-or-append of `upsert_ticker` and
 * the filter of `delete_ticker`.
 */
module Registry {
  import opened Symbols

  /** A cell of a CSV column: missing (None), text, or a boolean. */
  datatype Cell = Null | Text(s: string) | Flag(b: bool)

  /** One row of the table: exactly the columns symbol, name, sector, industry, is_active. */
  datatype Record = Record(symbol: string, name: Cell, sector: Cell, industry: Cell, isActive: bool)

  /** The four values `upsert_ticker` writes beside the symbol. */
  datatype Fields = Fields(name: string, sector: string, industry: string, isActive: bool)

  /** A row with the upserted values in its name, sector, industry and is_active columns. */
  function WithFields(row: Record, f: Fields): (r: Record)
    ensures r.symbol == row.symbol
    ensures r.name == Text(f.name) && r.sector == Text(f.sector) && r.industry == Text(f.industry)
    ensures r.isActive == f.isActive
  {
    row.(name := Text(f.name), sector := Text(f.sector), industry := Text(f.industry), isActive := f.isActive)
  }

  /** The row appended for a symbol the table does not hold: the key, carrying the upserted values. */
  function NewRow(key: string, f: Fields): (r: Record)
    ensures r.symbol == key
    ensures WithFields(r, f) == r
  {
    Record(key, Text(f.name), Text(f.sector), Text(f.industry), f.isActive)
  }

  /** `symbol in df["symbol"].values`: some row holds the key, that is, at least one row counts. */
  predicate HasSymbol(rows: seq<Record>, key: string)
    ensures HasSymbol(rows, key) <==> CountSymbol(rows, key) > 0
  {
    CountPositive(rows, key);
    exists i :: 0 <= i < |rows| && rows[i].symbol == key
  }

  lemma {:induction false} CountPositive(rows: seq<Record>, key: string)
    ensures CountSymbol(rows, key) > 0 <==> exists i :: 0 <= i < |rows| && rows[i].symbol == key
  {
    if rows != [] {
      CountPositive(rows[1..], key);
      if rows[0].symbol != key {
        forall i | 0 < i < |rows| && rows[i].symbol == key
          ensures exists j :: 0 <= j < |rows[1..]| && rows[1..][j].symbol == key
        {
          assert rows[1..][i - 1] == rows[i];
        }
        forall j | 0 <= j < |rows[1..]| && rows[1..][j].symbol == key
          ensures exists i :: 0 <= i < |rows| && rows[i].symbol == key
        {
          assert rows[j + 1] == rows[1..][j];
        }
      }
    }
  }

  /** No symbol occurs on two rows. */
  predicate UniqueSymbols(rows: seq<Record>) {
    forall i, j :: 0 <= i < j < |rows| ==> rows[i].symbol != rows[j].symbol
  }

  /** The number of rows holding `key`. */
  function CountSymbol(rows: seq<Record>, key: string): nat {
    if rows == [] then 0 else (if rows[0].symbol == key then 1 else 0) + CountSymbol(rows[1..], key)
  }

  /**
   * `df.loc[df["symbol"] == key, [...]] = [...]`: every row holding `key` gets
   * the new values; every other row stays as it was, in its place.
   */
  function Assigned(rows: seq<Record>, key: string, f: Fields): (r: seq<Record>)
    ensures |r| == |rows|
    ensures forall i :: 0 <= i < |rows| ==>
      r[i] == if rows[i].symbol == key then WithFields(rows[i], f) else rows[i]
  {
    if rows == [] then []
    else [if rows[0].symbol == key then WithFields(rows[0], f) else rows[0]] + Assigned(rows[1..], key, f)
  }

  /** The table part of `upsert_ticker`: update every row holding `key`, or append one new row. */
  function Upserted(rows: seq<Record>, key: string, f: Fields): (r: seq<Record>)
    ensures |r| == |rows| + (if HasSymbol(rows, key) then 0 else 1)
    ensures forall i :: 0 <= i < |rows| ==>
      r[i] == if rows[i].symbol == key then WithFields(rows[i], f) else rows[i]
    ensures !HasSymbol(rows, key) ==> r[|rows|] == NewRow(key, f)
    ensures HasSymbol(r, key)
  {
    if HasSymbol(rows, key) then Assigned(rows, key, f)
    else
      var r := rows + [NewRow(key, f)];
      assert r[|rows|].symbol == key;
      r
  }

  /** `df[df["symbol"] != key]`: the rows not holding `key`, in their order. */
  function Without(rows: seq<Record>, key: string): (r: seq<Record>)
    ensures |r| <= |rows|
    ensures forall i :: 0 <= i < |r| ==> r[i].symbol != key
    ensures forall row :: row in r ==> row in rows
    ensures forall row :: row in rows && row.symbol != key ==> row in r
  {
    if rows == [] then []
    else if rows[0].symbol == key then Without(rows[1..], key)
    else [rows[0]] + Without(rows[1..], key)
  }

  // ---------------------------------------------------------------------------
  // Upsert
  // ---------------------------------------------------------------------------

  /** Upserting a symbol the table holds keeps its length and writes the values on every row holding it. */
  lemma UpsertPresent(rows: seq<Record>, key: string, f: Fields)
    requires HasSymbol(rows, key)
    ensures |Upserted(rows, key, f)| == |rows|
    ensures forall i :: 0 <= i < |rows| && rows[i].symbol == key ==>
      Upserted(rows, key, f)[i] == WithFields(rows[i], f)
    ensures forall i :: 0 <= i < |rows| && rows[i].symbol != key ==> Upserted(rows, key, f)[i] == rows[i]
  {
  }

  /** Upserting a symbol the table lacks appends exactly one row at the end and keeps the rest. */
  lemma UpsertAbsent(rows: seq<Record>, key: string, f: Fields)
    requires !HasSymbol(rows, key)
    ensures Upserted(rows, key, f) == rows + [NewRow(key, f)]
  {
    var r := Upserted(rows, key, f);
    assert |r| == |rows| + 1;
    assert forall i :: 0 <= i < |r| ==> r[i] == (rows + [NewRow(key, f)])[i];
  }

  /** Upserting the same values twice gives the table that upserting once gives. */
  lemma {:induction false} UpsertIdempotent(rows: seq<Record>, key: string, f: Fields)
    ensures Upserted(Upserted(rows, key, f), key, f) == Upserted(rows, key, f)
  {
    var once := Upserted(rows, key, f);
    var twice := Upserted(once, key, f);
    assert |twice| == |once|;
    forall i | 0 <= i < |once|
      ensures twice[i] == once[i]
    {
      if i == |rows| {
        assert once[i] == NewRow(key, f);
      }
    }
  }

  /** Upserting keeps the symbols unique. */
  lemma UpsertKeepsUnique(rows: seq<Record>, key: string, f: Fields)
    requires UniqueSymbols(rows)
    ensures UniqueSymbols(Upserted(rows, key, f))
  {
    var r := Upserted(rows, key, f);
    forall i, j | 0 <= i < j < |r|
      ensures r[i].symbol != r[j].symbol
    {
      if j == |rows| {
        assert rows[i].symbol != key;
      }
    }
  }

  /** The symbols after an upsert are the symbols before it and `key`. */
  lemma UpsertSymbols(rows: seq<Record>, key: string, f: Fields)
    ensures forall s :: HasSymbol(Upserted(rows, key, f), s) <==> HasSymbol(rows, s) || s == key
  {
    var r := Upserted(rows, key, f);
    forall s | HasSymbol(r, s)
      ensures HasSymbol(rows, s) || s == key
    {
      var i :| 0 <= i < |r| && r[i].symbol == s;
      if i < |rows| {
        assert rows[i].symbol == s;
      }
    }
    forall s | HasSymbol(rows, s)
      ensures HasSymbol(r, s)
    {
      var i :| 0 <= i < |rows| && rows[i].symbol == s;
      assert r[i].symbol == s;
    }
  }

  // ---------------------------------------------------------------------------
  // Delete
  // ---------------------------------------------------------------------------

  /** The filter distributes over concatenation, so the kept rows stay in their relative order. */
  lemma {:induction false} WithoutAppend(a: seq<Record>, b: seq<Record>, key: string)
    ensures Without(a + b, key) == Without(a, key) + Without(b, key)
  {
    if a == [] {
      assert a + b == b;
    } else {
      assert (a + b)[1..] == a[1..] + b;
      WithoutAppend(a[1..], b, key);
    }
  }

  /** Filtering a single row keeps it exactly when its symbol differs from `key`. */
  lemma WithoutSingle(row: Record, key: string)
    ensures Without([row], key) == if row.symbol == key then [] else [row]
  {
    assert [row][1..] == [];
  }

  /** Exactly the rows holding `key` are dropped. */
  lemma {:induction false} WithoutLength(rows: seq<Record>, key: string)
    ensures |Without(rows, key)| == |rows| - CountSymbol(rows, key)
  {
    if rows != [] {
      WithoutLength(rows[1..], key);
    }
  }

  /** A table without `key` is left unchanged by the filter. */
  lemma {:induction false} WithoutAbsent(rows: seq<Record>, key: string)
    requires !HasSymbol(rows, key)
    ensures Without(rows, key) == rows
  {
    if rows != [] {
      assert !HasSymbol(rows[1..], key) by {
        forall i | 0 <= i < |rows[1..]| ensures rows[1..][i].symbol != key {
          assert rows[1..][i] == rows[i + 1];
        }
      }
      WithoutAbsent(rows[1..], key);
      assert rows == [rows[0]] + rows[1..];
    }
  }

  /** After the filter no row holds `key`, and filtering again changes nothing. */
  lemma WithoutIdempotent(rows: seq<Record>, key: string)
    ensures !HasSymbol(Without(rows, key), key)
    ensures Without(Without(rows, key), key) == Without(rows, key)
  {
    WithoutAbsent(Without(rows, key), key);
  }

  /** The filter keeps the symbols unique. */
  lemma {:induction false} WithoutKeepsUnique(rows: seq<Record>, key: string)
    requires UniqueSymbols(rows)
    ensures UniqueSymbols(Without(rows, key))
  {
    if rows != [] {
      var rest := rows[1..];
      assert UniqueSymbols(rest) by {
        forall i, j | 0 <= i < j < |rest| ensures rest[i].symbol != rest[j].symbol {
          assert rest[i] == rows[i + 1] && rest[j] == rows[j + 1];
        }
      }
      WithoutKeepsUnique(rest, key);
      if rows[0].symbol != key {
        var w := Without(rest, key);
        forall j | 0 <= j < |w| ensures rows[0].symbol != w[j].symbol {
          assert w[j] in rest;
          var k :| 0 <= k < |rest| && rest[k] == w[j];
          assert rest[k] == rows[k + 1];
        }
        var r := [rows[0]] + w;
        forall i, j | 0 <= i < j < |r| ensures r[i].symbol != r[j].symbol {
          if i > 0 {
            assert r[i] == w[i - 1] && r[j] == w[j - 1];
          } else {
            assert r[j] == w[j - 1];
          }
        }
      }
    }
  }

  // ---------------------------------------------------------------------------
  // Upsert and delete together
  // ---------------------------------------------------------------------------

  /** The filter drops every row an update touched, so deleting after an upsert deletes as before it. */
  lemma {:induction false} WithoutAssigned(rows: seq<Record>, key: string, f: Fields)
    ensures Without(Assigned(rows, key, f), key) == Without(rows, key)
  {
    if rows != [] {
      var a := Assigned(rows, key, f);
      assert a == [a[0]] + Assigned(rows[1..], key, f);
      assert a[1..] == Assigned(rows[1..], key, f);
      WithoutAssigned(rows[1..], key, f);
    }
  }

  /** Deleting a symbol after upserting it leaves what deleting it alone leaves. */
  lemma DeleteAfterUpsert(rows: seq<Record>, key: string, f: Fields)
    ensures Without(Upserted(rows, key, f), key) == Without(rows, key)
  {
    if HasSymbol(rows, key) {
      WithoutAssigned(rows, key, f);
    } else {
      UpsertAbsent(rows, key, f);
      WithoutAppend(rows, [NewRow(key, f)], key);
      WithoutSingle(NewRow(key, f), key);
      assert Without(rows, key) + [] == Without(rows, key);
    }
  }

  /** Upserting a symbol after deleting it appends one fresh row to the filtered table. */
  lemma UpsertAfterDelete(rows: seq<Record>, key: string, f: Fields)
    ensures Upserted(Without(rows, key), key, f) == Without(rows, key) + [NewRow(key, f)]
  {
    WithoutIdempotent(rows, key);
    UpsertAbsent(Without(rows, key), key, f);
  }
}
