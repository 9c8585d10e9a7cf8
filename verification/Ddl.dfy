/**
 * Tables as a migration sees them: columns, rows and secondary index names, with the statements it issues.
 * Column and index names are compared without regard to case, as MySQL does; table names exactly.
 */
module Ddl {
  import opened Options
  import opened Text

  datatype Value = Null | Number(n: int) | Characters(s: string) | CurrentTimestamp

  type Row = map<string, Value>

  datatype Table = Table(columns: seq<string>, indexes: seq<string>, rows: seq<Row>)

  type Schema = map<string, Table>

  datatype Position = First | Last | After(column: string)

  datatype ColumnSpec = ColumnSpec(name: string, initial: Value, position: Position)

  datatype IndexSpec = IndexSpec(name: string, columns: seq<string>)

  datatype DbError =
    | BadField(column: string)          // AFTER names a column the table does not have
    | DupFieldname(column: string)
    | KeyColumnMissing(column: string)
    | DupKeyname(index: string)

  datatype Altered = Ok(table: Table) | Err(error: DbError)

  // ---------------------------------------------------------------- names without case

  predicate SameName(a: string, b: string) { Lower(a) == Lower(b) }

  predicate Has(names: seq<string>, name: string) { exists i :: 0 <= i < |names| && SameName(names[i], name) }

  lemma HasExact(names: seq<string>, name: string)
    requires name in names
    ensures Has(names, name)
  {
    var i :| 0 <= i < |names| && names[i] == name;
    assert SameName(names[i], name);
  }

  // ---------------------------------------------------------------- ALTER TABLE ... ADD COLUMN

  function InsertAfter(columns: seq<string>, column: string, name: string): seq<string>
    decreases |columns|
  {
    if columns == [] then [name]
    else if SameName(columns[0], column) then [columns[0], name] + columns[1..]
    else [columns[0]] + InsertAfter(columns[1..], column, name)
  }

  function Insert(columns: seq<string>, spec: ColumnSpec): seq<string> {
    match spec.position
    case First => [spec.name] + columns
    case Last => columns + [spec.name]
    case After(column) => InsertAfter(columns, column, spec.name)
  }

  /** Without AFTER the new column stands before all others or behind them. */
  lemma InsertAtTheEnds(columns: seq<string>, spec: ColumnSpec)
    requires !spec.position.After?
    ensures var cs := Insert(columns, spec);
      && |cs| == |columns| + 1
      && (spec.position.First? ==> cs[0] == spec.name && cs[1..] == columns)
      && (spec.position.Last? ==> cs[|columns|] == spec.name && cs[..|columns|] == columns)
  {
  }

  function AlterAddColumn(t: Table, spec: ColumnSpec): Altered {
    if spec.position.After? && !Has(t.columns, spec.position.column) then Err(BadField(spec.position.column))
    else if Has(t.columns, spec.name) then Err(DupFieldname(spec.name))
    else Ok(Table(Insert(t.columns, spec), t.indexes, seq(|t.rows|, i requires 0 <= i < |t.rows| => t.rows[i][spec.name := spec.initial])))
  }

  /** The new column goes directly behind the first column of that name, and every other column keeps its place. */
  lemma {:induction false} InsertAfterPlaces(columns: seq<string>, column: string, name: string) returns (k: nat)
    requires Has(columns, column)
    ensures k < |columns| && SameName(columns[k], column)
    ensures forall i :: 0 <= i < k ==> !SameName(columns[i], column)
    ensures InsertAfter(columns, column, name) == columns[..k + 1] + [name] + columns[k + 1..]
    decreases |columns|
  {
    if SameName(columns[0], column) {
      k := 0;
    } else {
      var i :| 0 <= i < |columns| && SameName(columns[i], column);
      assert columns[1..][i - 1] == columns[i];
      var j := InsertAfterPlaces(columns[1..], column, name);
      k := j + 1;
      assert forall m :: 0 < m < k ==> columns[m] == columns[1..][m - 1];
      assert columns[..k + 1] == [columns[0]] + columns[1..][..j + 1];
      assert columns[k + 1..] == columns[1..][j + 1..];
    }
  }

  lemma {:induction false} InsertAfterMembers(columns: seq<string>, column: string, name: string, c: string)
    ensures c in InsertAfter(columns, column, name) <==> c == name || c in columns
    decreases |columns|
  {
    if columns != [] {
      InsertAfterMembers(columns[1..], column, name, c);
      assert columns == [columns[0]] + columns[1..];
    }
  }

  lemma InsertMembers(columns: seq<string>, spec: ColumnSpec, c: string)
    ensures c in Insert(columns, spec) <==> c == spec.name || c in columns
  {
    if spec.position.After? { InsertAfterMembers(columns, spec.position.column, spec.name, c); }
  }

  lemma HasIsMember(columns: seq<string>, c: string)
    ensures Has(columns, c) <==> exists d :: d in columns && SameName(d, c)
  {
    if Has(columns, c) {
      var i :| 0 <= i < |columns| && SameName(columns[i], c);
      assert columns[i] in columns;
    }
    if d :| d in columns && SameName(d, c) {
      var i :| 0 <= i < |columns| && columns[i] == d;
      assert SameName(columns[i], c);
    }
  }

  lemma InsertHas(columns: seq<string>, spec: ColumnSpec, c: string)
    ensures Has(Insert(columns, spec), c) <==> SameName(spec.name, c) || Has(columns, c)
  {
    HasIsMember(columns, c);
    HasIsMember(Insert(columns, spec), c);
    forall d ensures d in Insert(columns, spec) <==> d == spec.name || d in columns {
      InsertMembers(columns, spec, d);
    }
    assert spec.name in Insert(columns, spec);
  }

  // ---------------------------------------------------------------- ALTER TABLE ... ADD INDEX

  function AlterAddIndex(t: Table, spec: IndexSpec): Altered {
    if exists i :: 0 <= i < |spec.columns| && !Has(t.columns, spec.columns[i]) then
      Err(KeyColumnMissing(FirstMissing(t.columns, spec.columns)))
    else if Has(t.indexes, spec.name) then Err(DupKeyname(spec.name))
    else Ok(t.(indexes := t.indexes + [spec.name]))
  }

  function FirstMissing(have: seq<string>, wanted: seq<string>): string
    decreases |wanted|
  {
    if wanted == [] then ""
    else if !Has(have, wanted[0]) then wanted[0]
    else FirstMissing(have, wanted[1..])
  }

  /** The first of the index's columns that the table does not have, in any spelling. */
  predicate FirstNotThere(t: Table, spec: IndexSpec, i: nat) {
    i < |spec.columns| && !Has(t.columns, spec.columns[i]) && forall j :: 0 <= j < i ==> Has(t.columns, spec.columns[j])
  }

  lemma {:induction false} FirstMissingIs(have: seq<string>, wanted: seq<string>, i: nat)
    requires i < |wanted| && !Has(have, wanted[i]) && forall j :: 0 <= j < i ==> Has(have, wanted[j])
    ensures FirstMissing(have, wanted) == wanted[i]
    decreases i
  {
    if i > 0 {
      assert forall j :: 0 <= j < i - 1 ==> wanted[1..][j] == wanted[j + 1];
      FirstMissingIs(have, wanted[1..], i - 1);
    }
  }

  /** An index over columns that are all there is added behind the others unless its name is taken; else the first is named. */
  lemma AlterAddIndexIs(t: Table, spec: IndexSpec)
    ensures (forall i :: 0 <= i < |spec.columns| ==> Has(t.columns, spec.columns[i])) ==>
      AlterAddIndex(t, spec) ==
        if Has(t.indexes, spec.name) then Err(DupKeyname(spec.name)) else Ok(t.(indexes := t.indexes + [spec.name]))
    ensures forall i: nat :: FirstNotThere(t, spec, i) ==> AlterAddIndex(t, spec) == Err(KeyColumnMissing(spec.columns[i]))
  {
    forall i: nat | FirstNotThere(t, spec, i) ensures AlterAddIndex(t, spec) == Err(KeyColumnMissing(spec.columns[i])) {
      FirstMissingIs(t.columns, spec.columns, i);
    }
  }

  // ---------------------------------------------------------------- what a table keeps

  ghost predicate RowKept(columns: seq<string>, r: Row, r': Row) {
    forall c :: c in columns && c in r ==> c in r' && r'[c] == r[c]
  }

  /** Every column, every row with its values, and every index of `t` is still there in `t'`. */
  ghost predicate Extends(t: Table, t': Table) {
    && (forall c :: c in t.columns ==> c in t'.columns)
    && |t'.rows| == |t.rows|
    && (forall i :: 0 <= i < |t.rows| ==> RowKept(t.columns, t.rows[i], t'.rows[i]))
    && t.indexes <= t'.indexes
  }

  lemma ExtendsTrans(t: Table, u: Table, v: Table)
    requires Extends(t, u) && Extends(u, v)
    ensures Extends(t, v)
  {
    forall i | 0 <= i < |t.rows| ensures RowKept(t.columns, t.rows[i], v.rows[i]) {
      assert RowKept(t.columns, t.rows[i], u.rows[i]);
      assert RowKept(u.columns, u.rows[i], v.rows[i]);
    }
  }

  lemma AlterAddColumnExtends(t: Table, spec: ColumnSpec)
    requires AlterAddColumn(t, spec).Ok?
    ensures Extends(t, AlterAddColumn(t, spec).table)
  {
    var t' := AlterAddColumn(t, spec).table;
    forall c | c in t.columns ensures c in t'.columns && c != spec.name {
      InsertMembers(t.columns, spec, c);
      HasExact(t.columns, c);
    }
    forall i | 0 <= i < |t.rows| ensures RowKept(t.columns, t.rows[i], t'.rows[i]) {
      assert t'.rows[i] == t.rows[i][spec.name := spec.initial];
    }
  }

  lemma HasMonotone(names: seq<string>, more: seq<string>, c: string)
    requires forall d :: d in names ==> d in more
    requires Has(names, c)
    ensures Has(more, c)
  {
    HasIsMember(names, c);
    HasIsMember(more, c);
  }

  // ---------------------------------------------------------------- a free name for a renamed table

  /** The n-th candidate: the prefix itself, then prefix_1, prefix_2, ... */
  function LegacyName(prefix: string, n: nat): string { if n == 0 then prefix else prefix + "_" + Decimal(n) }

  lemma LegacyNamesAre(prefix: string)
    ensures LegacyName(prefix, 0) == prefix && LegacyName(prefix, 1) == prefix + "_1" && LegacyName(prefix, 12) == prefix + "_12"
  {
    assert Decimal(1) == "1" && Decimal(12) == "12";
  }

  lemma LegacyNamesDiffer(prefix: string, m: nat, n: nat)
    requires LegacyName(prefix, m) == LegacyName(prefix, n)
    ensures m == n
  {
    var a, b := LegacyName(prefix, m), LegacyName(prefix, n);
    if m > 0 && n > 0 {
      assert a[|prefix| + 1..] == Decimal(m) && b[|prefix| + 1..] == Decimal(n);
      DecimalInjective(m, n);
    }
  }

  predicate AllTaken(names: set<string>, prefix: string, n: nat) {
    forall m :: 0 <= m < n ==> LegacyName(prefix, m) in names
  }

  /** Finiteness: a finite set of names holds no more candidates than it has members. */
  lemma {:induction false} TakenAreFew(names: set<string>, prefix: string, n: nat)
    requires AllTaken(names, prefix, n)
    ensures n <= |names|
    decreases n
  {
    if n > 0 {
      var last := LegacyName(prefix, n - 1);
      forall m | 0 <= m < n - 1 ensures LegacyName(prefix, m) in names - {last} {
        if LegacyName(prefix, m) == last { LegacyNamesDiffer(prefix, m, n - 1); }
      }
      TakenAreFew(names - {last}, prefix, n - 1);
    }
  }

  /** The smallest candidate number from `n` on whose name is free. */
  function FreeNumber(names: set<string>, prefix: string, n: nat): (k: nat)
    requires AllTaken(names, prefix, n)
    ensures k >= n && LegacyName(prefix, k) !in names && AllTaken(names, prefix, k)
    decreases |names| - n
  {
    if LegacyName(prefix, n) !in names then n
    else
      TakenAreFew(names, prefix, n + 1);
      FreeNumber(names, prefix, n + 1)
  }

  function FreeName(names: set<string>, prefix: string): (name: string)
    ensures name !in names && prefix <= name
  {
    LegacyName(prefix, FreeNumber(names, prefix, 0))
  }
}
