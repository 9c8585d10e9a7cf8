/** The schema check that follows the migration, and the migration itself against a live connection. */
module SyncVerify {
  import opened Options
  import opened Text
  import opened Ddl
  import opened SyncPlans
  import opened SyncMigration

  datatype Missing = MissingTable(table: string) | MissingColumn(table: string, column: string)

  datatype Required = Required(table: string, columns: seq<string>)

  const REQUIRED: seq<Required> := [
    Required("sync_jobs", JOB_COLUMNS),
    Required("sync_logs", LOG_COLUMNS),
    Required("sync_shop_logs", ["shop_id"]),
    Required("shop_sync_status", STATUS_COLUMNS)]

  function MissingColumns(table: string, have: set<string>, columns: seq<string>): seq<Missing>
    decreases |columns|
  {
    if columns == [] then []
    else
      var n := |columns| - 1;
      var before := MissingColumns(table, have, columns[..n]);
      if columns[n] in have then before else before + [MissingColumn(table, columns[n])]
  }

  function MissingFrom(s: Schema, r: Required): seq<Missing> {
    if r.table !in s then [MissingTable(r.table)]
    else MissingColumns(r.table, ColumnSet(s[r.table]), r.columns)
  }

  function MissingFromAll(s: Schema, required: seq<Required>): seq<Missing>
    decreases |required|
  {
    if required == [] then []
    else MissingFromAll(s, required[..|required| - 1]) + MissingFrom(s, required[|required| - 1])
  }

  ghost predicate AllThere(have: set<string>, columns: seq<string>) {
    forall i :: 0 <= i < |columns| ==> columns[i] in have
  }

  ghost predicate Satisfied(s: Schema, r: Required) { r.table in s && AllThere(ColumnSet(s[r.table]), r.columns) }

  lemma {:induction false} NoMissingColumns(table: string, have: set<string>, columns: seq<string>)
    ensures MissingColumns(table, have, columns) == [] <==> AllThere(have, columns)
    decreases |columns|
  {
    if columns != [] {
      var n := |columns| - 1;
      NoMissingColumns(table, have, columns[..n]);
      assert AllThere(have, columns) <==> AllThere(have, columns[..n]) && columns[n] in have;
    }
  }

  lemma NothingMissingFrom(s: Schema, r: Required)
    ensures MissingFrom(s, r) == [] <==> Satisfied(s, r)
  {
    if r.table in s { NoMissingColumns(r.table, ColumnSet(s[r.table]), r.columns); }
  }

  ghost predicate AllSatisfied(s: Schema, required: seq<Required>) {
    forall i :: 0 <= i < |required| ==> Satisfied(s, required[i])
  }

  lemma SatisfiedUpTo(s: Schema, required: seq<Required>, n: nat)
    requires |required| == n + 1
    ensures AllSatisfied(s, required) <==> AllSatisfied(s, required[..n]) && Satisfied(s, required[n])
  {
    if AllSatisfied(s, required[..n]) && Satisfied(s, required[n]) {
      forall i | 0 <= i < |required| ensures Satisfied(s, required[i]) {
        if i < n { assert required[..n][i] == required[i]; }
      }
    }
  }

  lemma {:induction false} NothingMissing(s: Schema, required: seq<Required>)
    ensures MissingFromAll(s, required) == [] <==> AllSatisfied(s, required)
    decreases |required|
  {
    if required != [] {
      var n := |required| - 1;
      NothingMissing(s, required[..n]);
      NothingMissingFrom(s, required[n]);
      SatisfiedUpTo(s, required, n);
    }
  }

  /** What the check has to say about one required table: that it is not there, or which of its columns are not. */
  predicate Lacks(s: Schema, r: Required, m: Missing) {
    && m.table == r.table
    && match m
       case MissingTable(t) => t !in s
       case MissingColumn(t, c) => t in s && c in r.columns && c !in ColumnSet(s[t])
  }

  lemma {:induction false} MissingColumnsAre(table: string, have: set<string>, columns: seq<string>, m: Missing)
    ensures m in MissingColumns(table, have, columns)
      <==> m.MissingColumn? && m.table == table && m.column in columns && m.column !in have
    decreases |columns|
  {
    if columns != [] {
      var n := |columns| - 1;
      MissingColumnsAre(table, have, columns[..n], m);
      assert columns == columns[..n] + [columns[n]];
    }
  }

  /** The list holds exactly what the required tables lack. */
  lemma {:induction false} MissingAre(s: Schema, required: seq<Required>, m: Missing)
    ensures m in MissingFromAll(s, required) <==> exists r :: r in required && Lacks(s, r, m)
    decreases |required|
  {
    if required != [] {
      var n := |required| - 1;
      var last := required[n];
      MissingAre(s, required[..n], m);
      if last.table in s { MissingColumnsAre(last.table, ColumnSet(s[last.table]), last.columns, m); }
      assert m in MissingFrom(s, last) <==> Lacks(s, last, m);
      assert required == required[..n] + [last];
    }
  }

  // ---------------------------------------------------------------- the check after the migration

  /** No listed column of a kept table is there only in another spelling. */
  ghost predicate SpelledExactly(s: Schema, plan: Plan) {
    Kept(s, plan) ==> forall k :: 0 <= k < |plan.specs| ==>
      plan.specs[k].name in s[plan.name].columns || !Has(s[plan.name].columns, plan.specs[k].name)
  }

  /** A kept table has an `id` column under exactly that name. */
  predicate HasId(s: Schema, plan: Plan) { Kept(s, plan) ==> "id" in s[plan.name].columns }

  lemma PlanSatisfied(s: Schema, s': Schema, plan: Plan, skip: nat)
    requires WellMade(plan) && plan.name in s' && ColumnsAre(Base(s, plan), s'[plan.name], plan.specs)
    requires Listed(plan.created, plan.specs, skip) && skip <= 1
    requires skip == 1 ==> plan.created[0] == "id" && !InSpecs(plan.specs, "id")
    ensures Satisfied(s', Required(plan.name, plan.created))
      <==> SpelledExactly(s, plan) && (skip == 1 ==> HasId(s, plan))
  {
    var t, t' := Base(s, plan), s'[plan.name];
    if Kept(s, plan) {
      if Satisfied(s', Required(plan.name, plan.created)) {
        forall k | 0 <= k < |plan.specs|
          ensures plan.specs[k].name in t.columns || !Has(t.columns, plan.specs[k].name)
        {
          assert plan.created[k + skip] in ColumnSet(t');
        }
        assert skip == 1 ==> plan.created[0] in ColumnSet(t');
      }
      if SpelledExactly(s, plan) && (skip == 1 ==> HasId(s, plan)) {
        forall i | 0 <= i < |plan.created| ensures plan.created[i] in ColumnSet(t') {
          if i >= skip { assert plan.created[i] == plan.specs[i - skip].name; }
        }
      }
    } else {
      assert forall i :: 0 <= i < |plan.created| ==> plan.created[i] in t.columns;
    }
  }

  lemma IdIsNotListed()
    ensures !InSpecs(JOB_SPECS, "id") && !InSpecs(LOG_SPECS, "id")
  {
    var j, l := JOB_SPECS, LOG_SPECS;
    forall k | 0 <= k < |j| ensures |j[k].name| != 2 {
      assert k == 0 || k == 1 || k == 2 || k == 3 || k == 4 || k == 5 || k == 6 || k == 7
          || k == 8 || k == 9 || k == 10 || k == 11 || k == 12 || k == 13 || k == 14 || k == 15;
    }
    forall k | 0 <= k < |l| ensures |l[k].name| != 2 {
      assert k == 0 || k == 1 || k == 2 || k == 3 || k == 4 || k == 5 || k == 6 || k == 7;
    }
  }

  lemma ShopIdSatisfied(s: Schema, s': Schema, plan: Plan)
    requires WellMade(plan) && plan.name in s' && ColumnsAre(Base(s, plan), s'[plan.name], plan.specs)
    requires plan.legacyPrefix.Some?
    ensures Satisfied(s', Required(plan.name, ["shop_id"]))
  {
    assert "shop_id" in Base(s, plan).columns;
  }

  lemma ShopLogsSatisfied(s: Schema)
    requires Migrate(s).Done?
    ensures Satisfied(Migrate(s).schema, REQUIRED[2])
  {
    PlansWellMade();
    ColumnsAfterMigration(s, 3);
    assert PLANS[3] == SHOP_LOGS;
    ShopIdSatisfied(s, Migrate(s).schema, SHOP_LOGS);
  }

  lemma NothingRequiredMissing(s: Schema)
    ensures MissingFromAll(s, REQUIRED) == [] <==>
      && Satisfied(s, REQUIRED[0]) && Satisfied(s, REQUIRED[1]) && Satisfied(s, REQUIRED[2]) && Satisfied(s, REQUIRED[3])
  {
    NothingMissing(s, REQUIRED);
    assert |REQUIRED| == 4;
  }

  lemma JobsSatisfied(s: Schema)
    requires Migrate(s).Done?
    ensures Satisfied(Migrate(s).schema, REQUIRED[0]) <==> SpelledExactly(s, JOBS) && HasId(s, JOBS)
  {
    PlansWellMade();
    ColumnsAfterMigration(s, 0);
    JobsListed();
    IdIsNotListed();
    assert PLANS[0] == JOBS;
    PlanSatisfied(s, Migrate(s).schema, JOBS, 1);
  }

  lemma LogsSatisfied(s: Schema)
    requires Migrate(s).Done?
    ensures Satisfied(Migrate(s).schema, REQUIRED[1]) <==> SpelledExactly(s, LOGS) && HasId(s, LOGS)
  {
    PlansWellMade();
    ColumnsAfterMigration(s, 1);
    LogsListed();
    IdIsNotListed();
    assert PLANS[1] == LOGS;
    PlanSatisfied(s, Migrate(s).schema, LOGS, 1);
  }

  lemma StatusSatisfied(s: Schema)
    requires Migrate(s).Done?
    ensures Satisfied(Migrate(s).schema, REQUIRED[3]) <==> SpelledExactly(s, STATUS)
  {
    PlansWellMade();
    ColumnsAfterMigration(s, 2);
    StatusListed();
    assert PLANS[2] == STATUS;
    PlanSatisfied(s, Migrate(s).schema, STATUS, 0);
  }

  /**
   * After a migration that got through, the check finds nothing missing exactly when the kept sync_jobs and sync_logs
   * had an `id` and no kept table had a required column in another spelling only.
   */
  lemma VerifyOkIff(s: Schema)
    requires Migrate(s).Done?
    ensures MissingFromAll(Migrate(s).schema, REQUIRED) == [] <==>
      && HasId(s, JOBS) && HasId(s, LOGS)
      && SpelledExactly(s, JOBS) && SpelledExactly(s, LOGS) && SpelledExactly(s, STATUS)
  {
    JobsSatisfied(s);
    LogsSatisfied(s);
    StatusSatisfied(s);
    ShopLogsSatisfied(s);
    NothingRequiredMissing(Migrate(s).schema);
  }

  // ---------------------------------------------------------------- against a connection

  /** The database behind a connection, changed by one statement at a time; a failed run keeps what it has done so far. */
  class Connection {
    var tables: Schema

    constructor (s: Schema)
      ensures tables == s
    {
      tables := s;
    }

    /** Adds one column unless the local set has it; a duplicate reported by the server counts as added. */
    method AddColumn(table: string, have: set<string>, spec: ColumnSpec) returns (have': set<string>, error: Option<DbError>)
      requires table in tables
      modifies this
      ensures var p := SyncMigration.AddColumn(old(tables)[table], have, spec);
        && tables == old(tables)[table := p.table] && have' == p.have && error == p.error
    {
      have', error := have, None;
      if spec.name in have {
        assert tables == old(tables)[table := old(tables)[table]];
        return;
      }
      match AlterAddColumn(tables[table], spec)
      case Ok(t) =>
        tables := tables[table := t];
        have' := have + {spec.name};
      case Err(e) =>
        assert tables == old(tables)[table := old(tables)[table]];
        if !e.DupFieldname? {
          error := Some(e);
          return;
        }
        have' := have + {spec.name};
    }

    method AddAllColumns(table: string, specs: seq<ColumnSpec>) returns (error: Option<DbError>)
      requires table in tables
      modifies this
      ensures var p := AddColumns(old(tables)[table], ColumnSet(old(tables)[table]), specs);
        tables == old(tables)[table := p.table] && error == p.error
    {
      ghost var start := tables;
      ghost var result := AddColumns(start[table], ColumnSet(start[table]), specs);
      var have := ColumnSet(tables[table]);
      error := None;
      var i := 0;
      assert specs[0..] == specs && tables == start[table := tables[table]];
      while i < |specs|
        invariant 0 <= i <= |specs| && table in tables && tables == start[table := tables[table]]
        invariant error.None? && AddColumns(tables[table], have, specs[i..]) == result
      {
        have, error := AddColumn(table, have, specs[i]);
        assert specs[i..][1..] == specs[i + 1..];
        if error.Some? { return; }
        i := i + 1;
      }
    }

    method CreateIndex(table: string, spec: IndexSpec) returns (error: Option<DbError>)
      requires table in tables
      modifies this
      ensures match SyncMigration.CreateIndex(old(tables)[table], spec)
        case Ok(t) => tables == old(tables)[table := t] && error == None
        case Err(e) => tables == old(tables) && error == Some(e)
    {
      error := None;
      assert tables == old(tables)[table := old(tables)[table]];
      if Has(tables[table].indexes, spec.name) { return; }
      match AlterAddIndex(tables[table], spec)
      case Ok(t) => tables := tables[table := t];
      case Err(e) => if !e.DupKeyname? { error := Some(e); }
    }

    /** Looks for a name no table has, by counting up; stops because there are finitely many tables. */
    method FindLegacyName(prefix: string) returns (legacyName: string)
      ensures legacyName == FreeName(tables.Keys, prefix)
    {
      legacyName := prefix;
      var n := 0;
      while legacyName in tables
        invariant legacyName == LegacyName(prefix, n) && AllTaken(tables.Keys, prefix, n)
        invariant FreeNumber(tables.Keys, prefix, n) == FreeNumber(tables.Keys, prefix, 0)
        decreases |tables.Keys| - n
      {
        TakenAreFew(tables.Keys, prefix, n + 1);
        n := n + 1;
        legacyName := prefix + "_" + Decimal(n);
      }
    }

    method ArchiveLegacyTable(plan: Plan)
      modifies this
      ensures tables == Archive(old(tables), plan)
    {
      if plan.legacyPrefix.None? || plan.name !in tables { return; }
      if "shop_id" in tables[plan.name].columns { return; }
      var legacyName := FindLegacyName(plan.legacyPrefix.value);
      tables := (tables - {plan.name})[legacyName := tables[plan.name]];
    }

    method EnsureTable(plan: Plan) returns (error: Option<DbError>)
      modifies this
      ensures match SyncMigration.EnsureTable(old(tables), plan)
        case Done(s) => tables == s && error == None
        case Failed(s, e) => tables == s && error == Some(e)
    {
      error := None;
      ArchiveLegacyTable(plan);
      if plan.name !in tables {
        tables := tables[plan.name := Table(plan.created, [], [])];
        if plan.returnAfterCreate { return; }
      }
      ghost var s := tables;
      error := AddAllColumns(plan.name, plan.specs);
      if error.Some? { return; }
      ghost var u := tables[plan.name];
      var i := 0;
      assert plan.indexes[0..] == plan.indexes;
      while i < |plan.indexes|
        invariant 0 <= i <= |plan.indexes| && error.None?
        invariant plan.name in tables && tables == s[plan.name := tables[plan.name]]
        invariant CreateIndexes(tables[plan.name], plan.indexes[i..]) == CreateIndexes(u, plan.indexes)
      {
        ghost var t := tables[plan.name];
        error := CreateIndex(plan.name, plan.indexes[i]);
        assert plan.indexes[i..][1..] == plan.indexes[i + 1..];
        if error.Some? { return; }
        i := i + 1;
      }
    }

    method MigrateSyncStability41() returns (error: Option<DbError>)
      modifies this
      ensures match Migrate(old(tables))
        case Done(s) => tables == s && error == None
        case Failed(s, e) => tables == s && error == Some(e)
    {
      ghost var s := tables;
      error := None;
      var i := 0;
      assert PLANS[0..] == PLANS;
      while i < |PLANS|
        invariant 0 <= i <= |PLANS| && error.None?
        invariant EnsureTables(tables, PLANS[i..]) == EnsureTables(s, PLANS)
      {
        assert PLANS[i..][1..] == PLANS[i + 1..];
        error := EnsureTable(PLANS[i]);
        if error.Some? { return; }
        i := i + 1;
      }
    }

    method VerifySyncStabilitySchema() returns (ok: bool, missing: seq<Missing>)
      ensures missing == MissingFromAll(tables, REQUIRED) && ok == (missing == [])
    {
      missing := [];
      for i := 0 to |REQUIRED|
        invariant missing == MissingFromAll(tables, REQUIRED[..i])
      {
        var r := REQUIRED[i];
        assert REQUIRED[..i + 1][..i] == REQUIRED[..i];
        ghost var before := missing;
        if r.table !in tables {
          missing := missing + [MissingTable(r.table)];
        } else {
          var have := ColumnSet(tables[r.table]);
          for j := 0 to |r.columns|
            invariant missing == before + MissingColumns(r.table, have, r.columns[..j])
          {
            assert r.columns[..j + 1][..j] == r.columns[..j];
            if r.columns[j] !in have { missing := missing + [MissingColumn(r.table, r.columns[j])]; }
          }
          assert r.columns[..|r.columns|] == r.columns;
        }
      }
      assert REQUIRED[..|REQUIRED|] == REQUIRED;
      ok := missing == [];
    }
  }
}
