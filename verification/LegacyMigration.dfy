/**
 The copy of legacy tables into the new databases (scripts/migrate_legacy_data.py). A table is a
 map from primary keys to rows; the primary key is the only conflict.
 */
module LegacyMigration {
  import opened Wrappers
  import opened Sequences

  datatype Row = Row(key: string, values: seq<string>)

  type Table = map<string, Row>

  class Database {
    var tables: map<string, Table>

    constructor (tables: map<string, Table>)
      ensures this.tables == tables
    {
      this.tables := tables;
    }
  }

  /** INSERT OR IGNORE, row by row. */
  function Copied(table: Table, rows: seq<Row>): Table {
    if rows == [] then table
    else
      var before, row := Copied(table, rows[..|rows| - 1]), rows[|rows| - 1];
      if row.key in before then before else before[row.key := row]
  }

  ghost function Keys(rows: seq<Row>): set<string> {
    set row | row in rows :: row.key
  }

  ghost predicate DistinctKeys(rows: seq<Row>) {
    forall i, j :: 0 <= i < j < |rows| ==> rows[i].key != rows[j].key
  }

  lemma KeysNone()
    ensures Keys([]) == {}
  {
  }

  lemma KeysSnoc(rows: seq<Row>, row: Row)
    ensures Keys(rows + [row]) == Keys(rows) + {row.key}
    ensures forall x :: x in rows + [row] <==> x in rows || x == row
  {
    assert forall x :: x in rows + [row] <==> x in rows || x == row;
  }

  /** Existing rows never change, the keys are the union, and every new row is a source row. */
  lemma {:induction false} CopiedMeans(table: Table, rows: seq<Row>)
    ensures var t := Copied(table, rows);
            && (forall k :: k in table ==> k in t && t[k] == table[k])
            && (forall k :: k in t <==> k in table || k in Keys(rows))
            && (forall k :: k in t && k !in table ==> t[k] in rows && t[k].key == k)
            && |table| <= |t|
  {
    hide Keys;
    KeysNone();
    if rows != [] {
      var front, row := rows[..|rows| - 1], rows[|rows| - 1];
      CopiedMeans(table, front);
      KeysSnoc(front, row);
      assert rows == front + [row];
      var before := Copied(table, front);
      assert row.key !in before ==> before[row.key := row].Keys == before.Keys + {row.key};
    }
  }

  lemma {:induction false} AllPresent(table: Table, rows: seq<Row>)
    requires forall k :: k in Keys(rows) ==> k in table
    ensures Copied(table, rows) == table
  {
    if rows != [] {
      var front, row := rows[..|rows| - 1], rows[|rows| - 1];
      assert rows == front + [row];
      assert row in rows && forall x :: x in front ==> x in rows;
      AllPresent(table, front);
    }
  }

  lemma CopiedTwice(table: Table, rows: seq<Row>)
    ensures Copied(Copied(table, rows), rows) == Copied(table, rows)
  {
    CopiedMeans(table, rows);
    AllPresent(Copied(table, rows), rows);
  }

  lemma {:induction false} KeysSize(rows: seq<Row>)
    requires DistinctKeys(rows)
    ensures |Keys(rows)| == |rows|
  {
    if rows != [] {
      var front, row := rows[..|rows| - 1], rows[|rows| - 1];
      KeysSize(front);
      assert rows == front + [row];
      assert Keys(rows) == Keys(front) + {row.key};
      assert row.key !in Keys(front);
    }
  }

  /** The reported size is at least the number of source rows, and equals it exactly when the
      target had no keys of its own; it is the number of rows inserted exactly when the target
      was empty. */
  lemma CopiedSize(table: Table, rows: seq<Row>)
    requires DistinctKeys(rows)
    ensures |Copied(table, rows)| >= |rows|
    ensures |Copied(table, rows)| == |rows| <==> forall k :: k in table ==> k in Keys(rows)
    ensures |Copied(table, rows).Keys - table.Keys| == |Copied(table, rows)| <==> table == map[]
  {
    hide *;
    CopiedKeys(table, rows);
    KeysSize(rows);
    UnionSize(table.Keys, Keys(rows));
    MapSize(table);
    MapSize(Copied(table, rows));
  }

  lemma CopiedKeys(table: Table, rows: seq<Row>)
    ensures Copied(table, rows).Keys == table.Keys + Keys(rows)
  {
    CopiedMeans(table, rows);
  }

  lemma MapSize(table: Table)
    ensures |table.Keys| == |table| && (table.Keys == {} <==> table == map[])
  {
  }

  lemma UnionSize<T>(a: set<T>, b: set<T>)
    ensures |a + b| >= |b|
    ensures |a + b| == |b| <==> a <= b
    ensures |(a + b) - a| == |a + b| <==> a == {}
  {
    assert a + b == (a - b) + b && |a + b| == |a - b| + |b|;
    assert a + b == ((a + b) - a) + a && |a + b| == |(a + b) - a| + |a|;
    assert |a - b| == 0 <==> a - b == {};
  }

  // ---------- one table, then all four ----------

  /** The tables afterwards; None: the target table is missing and the insert raises. */
  function AfterCopy(src: map<string, seq<Row>>, tables: map<string, Table>, name: string): Option<map<string, Table>> {
    if name !in src || src[name] == [] then Some(tables)
    else if name !in tables then None
    else Some(tables[name := Copied(tables[name], src[name])])
  }

  /** What `_copy_table` reports. */
  function Counts(src: map<string, seq<Row>>, tables: map<string, Table>, name: string): (nat, nat)
    requires AfterCopy(src, tables, name).Some?
  {
    if name !in src || src[name] == [] then (0, 0) else (|src[name]|, |Copied(tables[name], src[name])|)
  }

  /** The second reported number is the number of rows inserted exactly when the source had nothing
      to copy or the target was empty; it is never less than the first. */
  lemma CountsMean(src: map<string, seq<Row>>, tables: map<string, Table>, name: string)
    requires name in tables && (name in src ==> DistinctKeys(src[name]))
    requires AfterCopy(src, tables, name).Some?
    ensures var after := AfterCopy(src, tables, name).value;
            && Counts(src, tables, name).0 <= Counts(src, tables, name).1
            && name in after
            && (Counts(src, tables, name).1 == |after[name].Keys - tables[name].Keys| <==>
                  name !in src || src[name] == [] || tables[name] == map[])
  {
    if name !in src || src[name] == [] {
      assert tables[name].Keys - tables[name].Keys == {};
    } else {
      CopiedSize(tables[name], src[name]);
    }
  }

  /** A target that holds the source row already: one row is reported as copied, none was. */
  lemma CountsOverstate(row: Row)
    ensures var src, tables := map["t" := [row]], map["t" := map[row.key := row]];
            AfterCopy(src, tables, "t") == Some(tables) && Counts(src, tables, "t") == (1, 1)
  {
    var src, tables := map["t" := [row]], map["t" := map[row.key := row]];
    assert [row][..0] == [];
    assert Copied(map[row.key := row], [row]) == map[row.key := row];
    assert tables["t" := tables["t"]] == tables;
  }

  /** `_copy_table` */
  method CopyTable(src: map<string, seq<Row>>, dst: Database, name: string) returns (r: Option<(nat, nat)>)
    modifies dst
    ensures r.Some? <==> AfterCopy(src, old(dst.tables), name).Some?
    ensures r.Some? ==> dst.tables == AfterCopy(src, old(dst.tables), name).value
    ensures r.Some? ==> r.value == Counts(src, old(dst.tables), name)
    ensures r.None? ==> dst.tables == old(dst.tables)
    ensures r.None? <==> name in src && src[name] != [] && name !in old(dst.tables)
    ensures r.Some? ==>
              r.value == if name !in src || src[name] == [] then (0, 0) else (|src[name]|, |dst.tables[name]|)
  {
    if name !in src || src[name] == [] {
      return Some((0, 0));
    }
    if name !in dst.tables {
      return None;
    }
    var rows := src[name];
    var table := dst.tables[name];
    for i := 0 to |rows|
      invariant table == Copied(old(dst.tables)[name], rows[..i])
      invariant dst.tables == old(dst.tables)
    {
      assert rows[..i + 1][..i] == rows[..i];
      if rows[i].key !in table {
        table := table[rows[i].key := rows[i]];
      }
    }
    assert rows[..|rows|] == rows;
    dst.tables := dst.tables[name := table];
    return Some((|rows|, |table|));
  }

  /** Copies in order, up to the first that raises; the flag says that all were made. */
  function AfterCopies(src: map<string, seq<Row>>, tables: map<string, Table>, names: seq<string>)
    : (map<string, Table>, bool)
  {
    if names == [] then (tables, true)
    else
      var next := AfterCopy(src, tables, names[0]);
      if next.None? then (tables, false) else AfterCopies(src, next.value, names[1..])
  }

  /** There is something to copy into the table. */
  predicate Wanted(src: map<string, seq<Row>>, name: string) {
    name in src && src[name] != []
  }

  /** Copies of different tables all succeed exactly when every target that is wanted is there, and
      then each of them has been copied into, and no other table has changed. */
  lemma {:induction false} AfterCopiesMean(src: map<string, seq<Row>>, tables: map<string, Table>, names: seq<string>)
    requires Distinct(names)
    ensures var (after, ok) := AfterCopies(src, tables, names);
            && (ok <==> forall i :: 0 <= i < |names| && Wanted(src, names[i]) ==> names[i] in tables)
            && (ok ==> after.Keys == tables.Keys)
            && (ok ==> forall n :: n in tables ==>
                         after[n] == if n in names && Wanted(src, n) then Copied(tables[n], src[n]) else tables[n])
    decreases |names|
  {
    hide Copied;
    if names != [] {
      var next := AfterCopy(src, tables, names[0]);
      var rest := names[1..];
      assert forall i :: 0 <= i < |rest| ==> rest[i] == names[i + 1];
      assert names[0] !in rest && forall n :: n in names <==> n == names[0] || n in rest;
      if next.Some? {
        assert next.value.Keys == tables.Keys;
        AfterCopiesMean(src, next.value, rest);
      } else {
        assert Wanted(src, names[0]);
      }
    }
  }

  const BENCHMARK_TABLES := ["benchmark_definitions", "benchmark_runs", "benchmark_run_samples"]

  const ALL_TABLES := ["model_downloads"] + BENCHMARK_TABLES

  method CopyTables(src: map<string, seq<Row>>, dst: Database, names: seq<string>) returns (ok: bool)
    modifies dst
    ensures (dst.tables, ok) == AfterCopies(src, old(dst.tables), names)
  {
    for i := 0 to |names|
      invariant AfterCopies(src, old(dst.tables), names) == AfterCopies(src, dst.tables, names[i..])
    {
      assert names[i..][1..] == names[i + 1..];
      var r := CopyTable(src, dst, names[i]);
      if r.None? {
        return false;
      }
    }
    return true;
  }

  /** The copies of `main`, in order; a raise ends it. Both targets may be one database. */
  method Migrate(src: map<string, seq<Row>>, downloads: Database, benchmarks: Database) returns (ok: bool)
    modifies downloads, benchmarks
    ensures downloads != benchmarks ==>
              && ok == Finishes(src, old(downloads.tables), old(benchmarks.tables))
              && (downloads.tables, benchmarks.tables) == Migrated(src, old(downloads.tables), old(benchmarks.tables))
    ensures downloads == benchmarks ==> (downloads.tables, ok) == AfterCopies(src, old(downloads.tables), ALL_TABLES)
  {
    ok := CopyTables(src, downloads, ["model_downloads"]);
    assert ALL_TABLES[1..] == BENCHMARK_TABLES && ["model_downloads"][1..] == [];
    if ok {
      ok := CopyTables(src, benchmarks, BENCHMARK_TABLES);
    }
  }

  function Finishes(src: map<string, seq<Row>>, downloads: map<string, Table>, benchmarks: map<string, Table>): bool {
    AfterCopies(src, downloads, ["model_downloads"]).1 && AfterCopies(src, benchmarks, BENCHMARK_TABLES).1
  }

  function Migrated(src: map<string, seq<Row>>, downloads: map<string, Table>, benchmarks: map<string, Table>)
    : (map<string, Table>, map<string, Table>)
  {
    var (d, ok) := AfterCopies(src, downloads, ["model_downloads"]);
    (d, if ok then AfterCopies(src, benchmarks, BENCHMARK_TABLES).0 else benchmarks)
  }

  /** The migration gets through exactly when every table that the source has rows for is in its
      target, downloads in one database and the three benchmark tables in the other; it then has
      copied those tables and changed no other. */
  lemma MigratedMeans(src: map<string, seq<Row>>, downloads: map<string, Table>, benchmarks: map<string, Table>)
    ensures Finishes(src, downloads, benchmarks) <==>
              && (Wanted(src, "model_downloads") ==> "model_downloads" in downloads)
              && (Wanted(src, "benchmark_definitions") ==> "benchmark_definitions" in benchmarks)
              && (Wanted(src, "benchmark_runs") ==> "benchmark_runs" in benchmarks)
              && (Wanted(src, "benchmark_run_samples") ==> "benchmark_run_samples" in benchmarks)
    ensures Finishes(src, downloads, benchmarks) ==>
              var (d, b) := Migrated(src, downloads, benchmarks);
              && d.Keys == downloads.Keys && b.Keys == benchmarks.Keys
              && (forall n :: n in d ==>
                    d[n] == if n == "model_downloads" && Wanted(src, n)
                            then Copied(downloads[n], src[n]) else downloads[n])
              && (forall n :: n in b ==>
                    b[n] == if Wanted(src, n)
                               && n in {"benchmark_definitions", "benchmark_runs", "benchmark_run_samples"}
                            then Copied(benchmarks[n], src[n]) else benchmarks[n])
  {
    hide Copied, AfterCopies, Wanted;
    BenchmarkNames();
    AfterCopiesMean(src, downloads, ["model_downloads"]);
    AfterCopiesMean(src, benchmarks, BENCHMARK_TABLES);
    var one := ["model_downloads"];
    assert one[0] == "model_downloads" && forall n :: n in one <==> n == "model_downloads";
  }

  lemma BenchmarkNames()
    ensures Distinct(BENCHMARK_TABLES) && |BENCHMARK_TABLES| == 3
    ensures BENCHMARK_TABLES[0] == "benchmark_definitions" && BENCHMARK_TABLES[1] == "benchmark_runs"
    ensures BENCHMARK_TABLES[2] == "benchmark_run_samples"
    ensures forall n :: n in BENCHMARK_TABLES <==>
                          n in {"benchmark_definitions", "benchmark_runs", "benchmark_run_samples"}
  {
    assert |"benchmark_definitions"| == 21 && |"benchmark_runs"| == 14;
    assert |"benchmark_run_samples"| == 21 && "benchmark_run_samples"[10] == 'r' && "benchmark_definitions"[10] == 'd';
  }

  /** A copy of `name` would change nothing. */
  predicate Settled(src: map<string, seq<Row>>, tables: map<string, Table>, name: string) {
    AfterCopy(src, tables, name) == Some(tables)
  }

  lemma CopySettles(src: map<string, seq<Row>>, tables: map<string, Table>, name: string)
    requires AfterCopy(src, tables, name).Some?
    ensures Settled(src, AfterCopy(src, tables, name).value, name)
  {
    if name in src && src[name] != [] {
      CopiedTwice(tables[name], src[name]);
      var t := AfterCopy(src, tables, name).value;
      assert t[name := t[name]] == t;
    }
  }

  lemma CopyKeepsSettled(src: map<string, seq<Row>>, tables: map<string, Table>, name: string, other: string)
    requires AfterCopy(src, tables, name).Some? && Settled(src, tables, other)
    ensures Settled(src, AfterCopy(src, tables, name).value, other)
  {
    if other == name {
      CopySettles(src, tables, name);
    } else if other in src && src[other] != [] {
      assert tables[other] == tables[other := Copied(tables[other], src[other])][other];
      var t := AfterCopy(src, tables, name).value;
      assert t[other := t[other]] == t;
    }
  }

  lemma {:induction false} CopiesKeepSettled(src: map<string, seq<Row>>, tables: map<string, Table>,
                                             names: seq<string>, other: string)
    requires Settled(src, tables, other)
    ensures Settled(src, AfterCopies(src, tables, names).0, other)
    decreases |names|
  {
    if names != [] && AfterCopy(src, tables, names[0]).Some? {
      CopyKeepsSettled(src, tables, names[0], other);
      CopiesKeepSettled(src, AfterCopy(src, tables, names[0]).value, names[1..], other);
    }
  }

  /** Which target tables exist does not change, so a copy that raised raises again. */
  lemma {:induction false} CopiesKeepTables(src: map<string, seq<Row>>, tables: map<string, Table>, names: seq<string>)
    ensures AfterCopies(src, tables, names).0.Keys == tables.Keys
    decreases |names|
  {
    if names != [] && AfterCopy(src, tables, names[0]).Some? {
      assert AfterCopy(src, tables, names[0]).value.Keys == tables.Keys;
      CopiesKeepTables(src, AfterCopy(src, tables, names[0]).value, names[1..]);
    }
  }

  /** Running a list of copies again changes nothing, and ends the same way. */
  lemma {:induction false} CopiesAgain(src: map<string, seq<Row>>, tables: map<string, Table>, names: seq<string>)
    ensures var t := AfterCopies(src, tables, names); AfterCopies(src, t.0, names) == t
    decreases |names|
  {
    if names != [] {
      var t := AfterCopies(src, tables, names);
      var next := AfterCopy(src, tables, names[0]);
      if next.Some? {
        CopySettles(src, tables, names[0]);
        CopiesKeepSettled(src, next.value, names[1..], names[0]);
        CopiesAgain(src, next.value, names[1..]);
      }
    }
  }

  /** Migrating twice is migrating once, also when a missing table stops it; `CopiesAgain` says it
      for one database. */
  lemma MigrateTwice(src: map<string, seq<Row>>, downloads: map<string, Table>, benchmarks: map<string, Table>)
    ensures var (d, b) := Migrated(src, downloads, benchmarks);
            Migrated(src, d, b) == (d, b) && Finishes(src, d, b) == Finishes(src, downloads, benchmarks)
  {
    CopiesAgain(src, downloads, ["model_downloads"]);
    CopiesAgain(src, benchmarks, BENCHMARK_TABLES);
  }
}
