/** The idempotent migration of the sync tables: archive, create, add columns, add indexes, verify. */
module SyncMigration {
  import opened Options
  import opened Text
  import opened Ddl
  import opened SyncPlans

  // ---------------------------------------------------------------- addColumn, one after the other

  /** `have` is the set the source reads once per table and then keeps up to date itself. */
  datatype Progress = Progress(table: Table, have: set<string>, error: Option<DbError>)

  function AddColumn(t: Table, have: set<string>, spec: ColumnSpec): Progress {
    if spec.name in have then Progress(t, have, None)
    else
      match AlterAddColumn(t, spec)
      case Ok(t') => Progress(t', have + {spec.name}, None)
      case Err(e) => if e.DupFieldname? then Progress(t, have + {spec.name}, None) else Progress(t, have, Some(e))
  }

  function AddColumns(t: Table, have: set<string>, specs: seq<ColumnSpec>): Progress
    decreases |specs|
  {
    if specs == [] then Progress(t, have, None)
    else
      var p := AddColumn(t, have, specs[0]);
      if p.error.Some? then p else AddColumns(p.table, p.have, specs[1..])
  }

  /** Once through, the set knows every column asked for, whether it was added, was there, or was there in another spelling. */
  lemma {:induction false} AddColumnsKnowsThemAll(t: Table, have: set<string>, specs: seq<ColumnSpec>, k: nat)
    requires AddColumns(t, have, specs).error.None? && k < |specs|
    ensures have <= AddColumns(t, have, specs).have && specs[k].name in AddColumns(t, have, specs).have
    decreases |specs|
  {
    var p := AddColumn(t, have, specs[0]);
    AddColumnsKeepsHave(p.table, p.have, specs[1..]);
    if k > 0 { AddColumnsKnowsThemAll(p.table, p.have, specs[1..], k - 1); }
  }

  lemma {:induction false} AddColumnsKeepsHave(t: Table, have: set<string>, specs: seq<ColumnSpec>)
    ensures have <= AddColumns(t, have, specs).have
    decreases |specs|
  {
    if specs != [] {
      var p := AddColumn(t, have, specs[0]);
      AddColumnsKeepsHave(p.table, p.have, specs[1..]);
    }
  }

  function ColumnSet(t: Table): set<string> { set c | c in t.columns }

  /** The column is already there by its exact name, or the column it is placed behind exists. */
  predicate Ready(t: Table, have: set<string>, spec: ColumnSpec) {
    spec.name in have || (spec.position.After? ==> Has(t.columns, spec.position.column))
  }

  ghost predicate HaveOk(t: Table, have: set<string>) {
    && (forall c :: c in t.columns ==> c in have)
    && (forall c :: c in have ==> Has(t.columns, c))
  }

  lemma InitialHave(t: Table)
    ensures HaveOk(t, ColumnSet(t))
  {
    forall c | c in ColumnSet(t) ensures Has(t.columns, c) { HasExact(t.columns, c); }
  }

  /** A column blocked by one of another spelling keeps being blocked, and absent under its own. */
  ghost predicate SpellingsKept(t: Table, t': Table) {
    forall c :: Has(t.columns, c) ==> (c in t'.columns <==> c in t.columns)
  }

  /** One step from a good state: no error, the column's name is taken afterwards, nothing is lost. */
  lemma AddColumnStep(t: Table, have: set<string>, spec: ColumnSpec)
    requires HaveOk(t, have) && Ready(t, have, spec)
    ensures var p := AddColumn(t, have, spec);
      && p.error.None? && HaveOk(p.table, p.have) && Extends(t, p.table) && SpellingsKept(t, p.table)
      && p.table.indexes == t.indexes
      && Has(p.table.columns, spec.name)
      && (!Has(t.columns, spec.name) ==> spec.name in p.table.columns)
  {
    var p := AddColumn(t, have, spec);
    if spec.name !in have && !Has(t.columns, spec.name) {
      AlterAddColumnExtends(t, spec);
      forall c ensures c in p.table.columns <==> c == spec.name || c in t.columns { InsertMembers(t.columns, spec, c); }
      forall c ensures Has(p.table.columns, c) <==> SameName(spec.name, c) || Has(t.columns, c) { InsertHas(t.columns, spec, c); }
    }
  }

  lemma {:induction false} AddColumnsSucceeds(t: Table, have: set<string>, specs: seq<ColumnSpec>)
    requires HaveOk(t, have) && Chained(specs) && (specs == [] || Ready(t, have, specs[0]))
    ensures var p := AddColumns(t, have, specs);
      && p.error.None? && HaveOk(p.table, p.have) && Extends(t, p.table) && SpellingsKept(t, p.table)
      && p.table.indexes == t.indexes
      && (forall i :: 0 <= i < |specs| ==> Has(p.table.columns, specs[i].name))
    decreases |specs|
  {
    if specs != [] {
      AddColumnStep(t, have, specs[0]);
      var p := AddColumn(t, have, specs[0]);
      AddColumnsSucceeds(p.table, p.have, specs[1..]);
      var q := AddColumns(p.table, p.have, specs[1..]);
      ExtendsTrans(t, p.table, q.table);
      HasMonotone(p.table.columns, q.table.columns, specs[0].name);
      forall c | Has(t.columns, c) ensures c in q.table.columns <==> c in t.columns {
        HasMonotone(t.columns, p.table.columns, c);
      }
      forall i | 0 <= i < |specs| ensures Has(q.table.columns, specs[i].name) {
        if i > 0 { assert specs[1..][i - 1] == specs[i]; }
      }
    }
  }

  /** A listed column no spelling of which was there before is there afterwards, under its exact name. */
  lemma {:induction false} NewColumnsArrive(t: Table, have: set<string>, specs: seq<ColumnSpec>, k: nat)
    requires HaveOk(t, have) && Chained(specs) && specs != [] && Ready(t, have, specs[0])
    requires LowerNames(specs) && k < |specs| && !Has(t.columns, specs[k].name)
    ensures specs[k].name in AddColumns(t, have, specs).table.columns
    decreases |specs|
  {
    AddColumnStep(t, have, specs[0]);
    var p := AddColumn(t, have, specs[0]);
    AddColumnsSucceeds(p.table, p.have, specs[1..]);
    if !SameName(specs[0].name, specs[k].name) {
      if specs[0].name !in have && !Has(t.columns, specs[0].name) { InsertHas(t.columns, specs[0], specs[k].name); }
      assert specs[1..][k - 1] == specs[k];
      NewColumnsArrive(p.table, p.have, specs[1..], k - 1);
    }
  }

  /** When every listed name is taken already, nothing changes. */
  lemma {:induction false} AddColumnsIsFixpoint(t: Table, have: set<string>, specs: seq<ColumnSpec>)
    requires HaveOk(t, have) && Chained(specs) && (specs == [] || Ready(t, have, specs[0]))
    requires forall i :: 0 <= i < |specs| ==> Has(t.columns, specs[i].name)
    ensures AddColumns(t, have, specs).table == t && AddColumns(t, have, specs).error.None?
    decreases |specs|
  {
    if specs != [] {
      AddColumnStep(t, have, specs[0]);
      var p := AddColumn(t, have, specs[0]);
      assert p.table == t;
      AddColumnsIsFixpoint(t, p.have, specs[1..]);
    }
  }

  // ---------------------------------------------------------------- createIndex

  function CreateIndex(t: Table, spec: IndexSpec): Altered {
    if Has(t.indexes, spec.name) then Ok(t)
    else
      match AlterAddIndex(t, spec)
      case Ok(t') => Ok(t')
      case Err(e) => if e.DupKeyname? then Ok(t) else Err(e)
  }

  /**
   * What becomes of one index: kept when its name is there, added when its columns are, and otherwise refused with the first
   * column that is missing. A name that is taken is no failure.
   */
  lemma CreateIndexIs(t: Table, spec: IndexSpec)
    ensures Has(t.indexes, spec.name) ==> CreateIndex(t, spec) == Ok(t)
    ensures !Has(t.indexes, spec.name) && (forall i :: 0 <= i < |spec.columns| ==> Has(t.columns, spec.columns[i])) ==>
      CreateIndex(t, spec) == Ok(t.(indexes := t.indexes + [spec.name]))
    ensures forall i: nat :: !Has(t.indexes, spec.name) && FirstNotThere(t, spec, i) ==>
      CreateIndex(t, spec) == Err(KeyColumnMissing(spec.columns[i]))
  {
    AlterAddIndexIs(t, spec);
  }

  datatype Indexing = Indexing(table: Table, error: Option<DbError>)

  function CreateIndexes(t: Table, specs: seq<IndexSpec>): Indexing
    decreases |specs|
  {
    if specs == [] then Indexing(t, None)
    else
      match CreateIndex(t, specs[0])
      case Ok(t') => CreateIndexes(t', specs[1..])
      case Err(e) => Indexing(t, Some(e))
  }

  ghost predicate Indexable(t: Table, specs: seq<IndexSpec>) {
    forall i, j :: 0 <= i < |specs| && 0 <= j < |specs[i].columns| ==> Has(t.columns, specs[i].columns[j])
  }

  lemma {:induction false} CreateIndexesSucceeds(t: Table, specs: seq<IndexSpec>)
    requires Indexable(t, specs)
    ensures var a := CreateIndexes(t, specs);
      && a.error.None? && a.table.columns == t.columns && a.table.rows == t.rows && Extends(t, a.table)
      && (forall i :: 0 <= i < |specs| ==> Has(a.table.indexes, specs[i].name))
    decreases |specs|
  {
    if specs != [] {
      assert forall j :: 0 <= j < |specs[0].columns| ==> Has(t.columns, specs[0].columns[j]);
      var t' := CreateIndex(t, specs[0]).table;
      CreateIndexesSucceeds(t', specs[1..]);
      var u := CreateIndexes(t', specs[1..]).table;
      assert Has(t'.indexes, specs[0].name) by {
        if !Has(t.indexes, specs[0].name) { assert t'.indexes[|t.indexes|] == specs[0].name; }
      }
      forall i | 0 <= i < |specs| ensures Has(u.indexes, specs[i].name) {
        if i > 0 {
          assert specs[1..][i - 1] == specs[i];
        } else {
          HasMonotone(t'.indexes, u.indexes, specs[0].name);
        }
      }
    }
  }

  lemma {:induction false} CreateIndexesIsFixpoint(t: Table, specs: seq<IndexSpec>)
    requires forall i :: 0 <= i < |specs| ==> Has(t.indexes, specs[i].name)
    ensures CreateIndexes(t, specs) == Indexing(t, None)
    decreases |specs|
  {
    if specs != [] { CreateIndexesIsFixpoint(t, specs[1..]); }
  }

  // ---------------------------------------------------------------- one table, and all of them

  datatype Outcome = Done(schema: Schema) | Failed(schema: Schema, error: DbError)

  predicate IsLegacy(s: Schema, plan: Plan) {
    plan.name in s && plan.legacyPrefix.Some? && "shop_id" !in s[plan.name].columns
  }

  function Archive(s: Schema, plan: Plan): Schema {
    if IsLegacy(s, plan) then (s - {plan.name})[FreeName(s.Keys, plan.legacyPrefix.value) := s[plan.name]] else s
  }

  function FillTable(s: Schema, plan: Plan): Outcome
    requires plan.name in s
  {
    var t := s[plan.name];
    var p := AddColumns(t, ColumnSet(t), plan.specs);
    if p.error.Some? then Failed(s[plan.name := p.table], p.error.value)
    else
      var x := CreateIndexes(p.table, plan.indexes);
      if x.error.Some? then Failed(s[plan.name := x.table], x.error.value) else Done(s[plan.name := x.table])
  }

  function EnsureTable(s: Schema, plan: Plan): Outcome {
    var s1 := Archive(s, plan);
    if plan.name in s1 then FillTable(s1, plan)
    else
      var s2 := s1[plan.name := Table(plan.created, [], [])];
      if plan.returnAfterCreate then Done(s2) else FillTable(s2, plan)
  }

  function EnsureTables(s: Schema, plans: seq<Plan>): Outcome
    decreases |plans|
  {
    if plans == [] then Done(s)
    else
      match EnsureTable(s, plans[0])
      case Done(s') => EnsureTables(s', plans[1..])
      case Failed(s', e) => Failed(s', e)
  }

  function Migrate(s: Schema): Outcome { EnsureTables(s, PLANS) }

  // ---------------------------------------------------------------- which columns a table ends up with

  predicate AllRowsHave(t: Table, c: string, v: Value) {
    forall i :: 0 <= i < |t.rows| ==> c in t.rows[i] && t.rows[i][c] == v
  }

  /** A column that was not there before is a listed one, and holds its default in every row. */
  ghost predicate OnlyListedAdded(t: Table, t': Table, specs: seq<ColumnSpec>) {
    forall c :: c in t'.columns && c !in t.columns ==>
      exists k :: 0 <= k < |specs| && specs[k].name == c && AllRowsHave(t', c, specs[k].initial)
  }

  lemma {:induction false} AddColumnsAddsOnlyListed(t: Table, have: set<string>, specs: seq<ColumnSpec>)
    requires HaveOk(t, have) && Chained(specs) && (specs == [] || Ready(t, have, specs[0]))
    ensures OnlyListedAdded(t, AddColumns(t, have, specs).table, specs)
    decreases |specs|
  {
    if specs != [] {
      AddColumnStep(t, have, specs[0]);
      var p := AddColumn(t, have, specs[0]);
      AddColumnsSucceeds(p.table, p.have, specs[1..]);
      AddColumnsAddsOnlyListed(p.table, p.have, specs[1..]);
      var u := AddColumns(p.table, p.have, specs[1..]).table;
      forall c | c in u.columns && c !in t.columns
        ensures exists k :: 0 <= k < |specs| && specs[k].name == c && AllRowsHave(u, c, specs[k].initial)
      {
        if c in p.table.columns {
          InsertMembers(t.columns, specs[0], c);
          assert specs[0].name == c && AllRowsHave(p.table, c, specs[0].initial);
          assert forall i :: 0 <= i < |u.rows| ==> RowKept(p.table.columns, p.table.rows[i], u.rows[i]);
          assert AllRowsHave(u, c, specs[0].initial);
        } else {
          var k :| 0 <= k < |specs[1..]| && specs[1..][k].name == c && AllRowsHave(u, c, specs[1..][k].initial);
          assert specs[k + 1].name == c && AllRowsHave(u, c, specs[k + 1].initial);
        }
      }
    }
  }

  /** The table the columns are added to: the one found, or the one just created. */
  function Base(s: Schema, plan: Plan): Table {
    if plan.name in s && !IsLegacy(s, plan) then s[plan.name] else Table(plan.created, [], [])
  }

  predicate Kept(s: Schema, plan: Plan) { plan.name in s && !IsLegacy(s, plan) }

  predicate Migratable(s: Schema, plan: Plan)
    requires plan.specs != []
  {
    Kept(s, plan) ==> Ready(s[plan.name], ColumnSet(s[plan.name]), plan.specs[0])
  }

  ghost predicate Named(t: Table, plan: Plan) {
    forall k :: 0 <= k < |plan.specs| ==> Has(t.columns, plan.specs[k].name)
  }

  ghost predicate Indexed(t: Table, plan: Plan) {
    forall i :: 0 <= i < |plan.indexes| ==> Has(t.indexes, plan.indexes[i].name)
  }

  /** Exactly the old columns and the listed ones of which no spelling existed. */
  ghost predicate ColumnsAre(t: Table, t': Table, specs: seq<ColumnSpec>) {
    forall c :: c in t'.columns <==> c in t.columns || (InSpecs(specs, c) && !Has(t.columns, c))
  }

  /** What the columns part of a fill does to a table it can work on. */
  lemma FillColumns(t: Table, plan: Plan)
    requires WellMade(plan) && Ready(t, ColumnSet(t), plan.specs[0])
    ensures var p := AddColumns(t, ColumnSet(t), plan.specs);
      && p.error.None? && Extends(t, p.table) && p.table.indexes == t.indexes && Named(p.table, plan)
      && ColumnsAre(t, p.table, plan.specs) && OnlyListedAdded(t, p.table, plan.specs)
      && Indexable(p.table, plan.indexes)
  {
    InitialHave(t);
    AddColumnsSucceeds(t, ColumnSet(t), plan.specs);
    AddColumnsAddsOnlyListed(t, ColumnSet(t), plan.specs);
    var u := AddColumns(t, ColumnSet(t), plan.specs).table;
    forall c ensures c in u.columns <==> c in t.columns || (InSpecs(plan.specs, c) && !Has(t.columns, c)) {
      if InSpecs(plan.specs, c) && !Has(t.columns, c) {
        var k :| 0 <= k < |plan.specs| && plan.specs[k].name == c;
        NewColumnsArrive(t, ColumnSet(t), plan.specs, k);
      }
    }
    forall i, j | 0 <= i < |plan.indexes| && 0 <= j < |plan.indexes[i].columns|
      ensures Has(u.columns, plan.indexes[i].columns[j])
    {
      assert InSpecs(plan.specs, plan.indexes[i].columns[j]);
    }
  }

  ghost predicate Filled(t: Table, t': Table, plan: Plan) {
    Extends(t, t') && ColumnsAre(t, t', plan.specs) && OnlyListedAdded(t, t', plan.specs) && Named(t', plan)
  }

  lemma FillTableDone(s: Schema, plan: Plan)
    requires WellMade(plan) && plan.name in s && Ready(s[plan.name], ColumnSet(s[plan.name]), plan.specs[0])
    ensures FillTable(s, plan).Done?
    ensures var s' := FillTable(s, plan).schema;
      && s'.Keys == s.Keys
      && (forall x :: x in s && x != plan.name ==> s'[x] == s[x])
      && Filled(s[plan.name], s'[plan.name], plan) && Indexed(s'[plan.name], plan)
  {
    var t := s[plan.name];
    FillColumns(t, plan);
    var u := AddColumns(t, ColumnSet(t), plan.specs).table;
    CreateIndexesSucceeds(u, plan.indexes);
    ExtendsTrans(t, u, CreateIndexes(u, plan.indexes).table);
  }

  lemma CreatedIsNamed(plan: Plan)
    requires WellMade(plan)
    ensures var t := Table(plan.created, [], []);
      Named(t, plan) && Ready(t, ColumnSet(t), plan.specs[0]) && Filled(t, t, plan)
  {
    var t := Table(plan.created, [], []);
    forall k | 0 <= k < |plan.specs| ensures Has(t.columns, plan.specs[k].name) { HasExact(t.columns, plan.specs[k].name); }
    assert plan.specs[0].name in t.columns;
  }

  /** One table's part of the migration: what it does, and exactly when it gets through. */
  lemma EnsureTableDone(s: Schema, plan: Plan)
    requires WellMade(plan) && Migratable(s, plan)
    ensures EnsureTable(s, plan).Done?
    ensures var s' := EnsureTable(s, plan).schema;
      && plan.name in s' && Filled(Base(s, plan), s'[plan.name], plan)
      && (Indexed(s'[plan.name], plan) || (plan.returnAfterCreate && plan.name !in s))
      && (plan.returnAfterCreate && plan.name !in s ==> s'[plan.name].indexes == [])
      && (IsLegacy(s, plan) ==>
            s'.Keys == s.Keys + {FreeName(s.Keys, plan.legacyPrefix.value)}
            && s'[FreeName(s.Keys, plan.legacyPrefix.value)] == s[plan.name])
      && (!IsLegacy(s, plan) ==> s'.Keys == s.Keys + {plan.name})
      && (forall x :: x in s && x != plan.name ==> s'[x] == s[x])
  {
    var s1 := Archive(s, plan);
    if Kept(s, plan) {
      FillTableDone(s1, plan);
    } else {
      CreatedIsNamed(plan);
      var s2 := s1[plan.name := Table(plan.created, [], [])];
      if !plan.returnAfterCreate { FillTableDone(s2, plan); }
    }
  }

  lemma EnsureTableFails(s: Schema, plan: Plan)
    requires WellMade(plan) && !Migratable(s, plan)
    ensures EnsureTable(s, plan) == Failed(s, BadField(plan.specs[0].position.column))
  {
    assert s[plan.name := s[plan.name]] == s;
  }

  // ---------------------------------------------------------------- nothing is lost

  /**
   * Where each table of `s` is found afterwards: under its own name and possibly extended, or renamed to a name
   * `s` does not use and otherwise unchanged. `touched` are the names the migration works on.
   */
  ghost predicate Carries(s: Schema, home: map<string, string>, s': Schema, touched: set<string>) {
    && home.Keys == s.Keys
    && Injective(home)
    && (forall x :: x in s ==> Found(s, x, home[x], s', touched))
    && (forall y :: y in s' ==> y in touched || y in home.Values)
  }

  ghost predicate Injective(home: map<string, string>) {
    forall x, y :: x in home && y in home && home[x] == home[y] ==> x == y
  }

  ghost predicate Found(s: Schema, x: string, y: string, s': Schema, touched: set<string>)
    requires x in s
  {
    && y in s' && Extends(s[x], s'[y])
    && (y != x ==> x in touched && "shop_id" !in s[x].columns && y !in s && |y| > LONGEST && s'[y] == s[x])
    && (x !in touched ==> y == x && s'[x] == s[x])
  }

  ghost function Identity(s: Schema): map<string, string> { map x | x in s :: x }

  lemma CarriesSelf(s: Schema, touched: set<string>)
    ensures Carries(s, Identity(s), s, touched)
  {
    forall y | y in s ensures y in Identity(s).Values { assert Identity(s)[y] == y; }
  }

  lemma EnsureTableCarries(s: Schema, plan: Plan) returns (home: map<string, string>)
    requires WellMade(plan)
    ensures Carries(s, home, EnsureTable(s, plan).schema, {plan.name})
  {
    home := Identity(s);
    if !Migratable(s, plan) {
      EnsureTableFails(s, plan);
      CarriesSelf(s, {plan.name});
    } else {
      EnsureTableDone(s, plan);
      var s' := EnsureTable(s, plan).schema;
      if IsLegacy(s, plan) {
        var free := FreeName(s.Keys, plan.legacyPrefix.value);
        home := home[plan.name := free];
        assert home[plan.name] == free;
      }
      forall x | x in s ensures Found(s, x, home[x], s', {plan.name}) {
        if x == plan.name && !IsLegacy(s, plan) { assert Filled(s[x], s'[x], plan); }
      }
      forall y | y in s' && y != plan.name ensures y in home.Values {
        if y in s { assert home[y] == y; }
      }
    }
  }

  ghost function Then(f: map<string, string>, g: map<string, string>): map<string, string>
    requires f.Values <= g.Keys
  {
    map x | x in f :: g[f[x]]
  }

  lemma FoundThen(s: Schema, x: string, m: Schema, y: string, t: Schema, z: string, p: set<string>, q: set<string>)
    requires x in s && Found(s, x, y, m, p) && Found(m, y, z, t, q) && s.Keys <= m.Keys
    requires p !! q && (forall n :: n in q ==> |n| <= LONGEST)
    ensures Found(s, x, z, t, p + q)
  {
    ExtendsTrans(s[x], m[y], t[z]);
  }

  lemma CarriesThen(s: Schema, f: map<string, string>, m: Schema, p: set<string>,
                    g: map<string, string>, t: Schema, q: set<string>)
    requires Carries(s, f, m, p) && Carries(m, g, t, q) && s.Keys <= m.Keys
    requires p !! q && (forall x :: x in q ==> |x| <= LONGEST)
    ensures f.Values <= g.Keys && Carries(s, Then(f, g), t, p + q)
  {
    forall y | y in f.Values ensures y in g.Keys {
      var x :| x in f && f[x] == y;
      assert Found(s, x, f[x], m, p);
    }
    var h := Then(f, g);
    forall x | x in s ensures Found(s, x, h[x], t, p + q) {
      assert Found(s, x, f[x], m, p) && Found(m, f[x], g[f[x]], t, q);
      FoundThen(s, x, m, f[x], t, g[f[x]], p, q);
    }
    forall y | y in t ensures y in p + q || y in h.Values { CoveredThen(s, f, m, p, g, t, q, y); }
  }

  lemma CoveredThen(s: Schema, f: map<string, string>, m: Schema, p: set<string>,
                    g: map<string, string>, t: Schema, q: set<string>, y: string)
    requires Carries(s, f, m, p) && Carries(m, g, t, q) && p !! q && f.Values <= g.Keys && y in t
    ensures y in p + q || y in Then(f, g).Values
  {
    if y !in q {
      var z :| z in g && g[z] == y;
      assert Found(m, z, g[z], t, q);
      if z !in p {
        var x :| x in f && f[x] == z;
        assert Then(f, g)[x] == y;
      }
    }
  }

  function Names(plans: seq<Plan>): set<string> { set i | 0 <= i < |plans| :: plans[i].name }

  ghost predicate AllWellMade(plans: seq<Plan>) {
    && (forall i :: 0 <= i < |plans| ==> WellMade(plans[i]))
    && (forall i, j :: 0 <= i < j < |plans| ==> plans[i].name != plans[j].name)
  }

  lemma RestWellMade(plans: seq<Plan>)
    requires AllWellMade(plans) && plans != []
    ensures WellMade(plans[0]) && AllWellMade(plans[1..])
    ensures Names(plans) == {plans[0].name} + Names(plans[1..]) && plans[0].name !in Names(plans[1..])
    ensures forall x :: x in Names(plans[1..]) ==> |x| <= LONGEST
  {
    var rest := plans[1..];
    assert forall i :: 0 <= i < |rest| ==> rest[i] == plans[i + 1];
    forall x | x in Names(plans) ensures x in {plans[0].name} + Names(rest) {
      var i :| 0 <= i < |plans| && plans[i].name == x;
      if i > 0 { assert rest[i - 1].name == x; }
    }
    forall x | x in Names(rest) ensures x in Names(plans) && x != plans[0].name {
      var i :| 0 <= i < |rest| && rest[i].name == x;
      assert plans[i + 1].name == x;
    }
  }

  lemma NamesStay(s: Schema, plan: Plan)
    requires WellMade(plan)
    ensures s.Keys <= EnsureTable(s, plan).schema.Keys
  {
    if Migratable(s, plan) { EnsureTableDone(s, plan); } else { EnsureTableFails(s, plan); }
  }

  lemma {:induction false} EnsureTablesCarries(s: Schema, plans: seq<Plan>) returns (home: map<string, string>)
    requires AllWellMade(plans)
    ensures Carries(s, home, EnsureTables(s, plans).schema, Names(plans))
    decreases |plans|
  {
    if plans == [] {
      home := Identity(s);
      CarriesSelf(s, {});
    } else {
      RestWellMade(plans);
      var s1 := EnsureTable(s, plans[0]).schema;
      var f := EnsureTableCarries(s, plans[0]);
      var g := Identity(s1);
      CarriesSelf(s1, Names(plans[1..]));
      if EnsureTable(s, plans[0]).Done? { g := EnsureTablesCarries(s1, plans[1..]); }
      var t := EnsureTables(s, plans).schema;
      NamesStay(s, plans[0]);
      CarriesThen(s, f, s1, {plans[0].name}, g, t, Names(plans[1..]));
      home := Then(f, g);
    }
  }

  lemma OthersUntouched(s: Schema, plan: Plan, other: Plan)
    requires WellMade(plan) && WellMade(other) && plan.name != other.name && Migratable(s, plan)
    ensures var s' := EnsureTable(s, plan).schema;
      && (other.name in s' <==> other.name in s)
      && (other.name in s ==> s'[other.name] == s[other.name])
      && Base(s', other) == Base(s, other)
  {
    EnsureTableDone(s, plan);
  }

  // ---------------------------------------------------------------- when the migration gets through

  /** The run reaches its end exactly when every kept table offers the column the first added one is placed behind. */
  lemma {:induction false} EnsureTablesDone(s: Schema, plans: seq<Plan>)
    requires AllWellMade(plans)
    ensures EnsureTables(s, plans).Done? <==> forall i :: 0 <= i < |plans| ==> Migratable(s, plans[i])
    decreases |plans|
  {
    if plans != [] {
      RestWellMade(plans);
      if Migratable(s, plans[0]) {
        EnsureTableDone(s, plans[0]);
        var s1 := EnsureTable(s, plans[0]).schema;
        EnsureTablesDone(s1, plans[1..]);
        forall i | 0 < i < |plans| ensures plans[i] == plans[1..][i - 1] && (Migratable(s, plans[i]) <==> Migratable(s1, plans[i])) {
          OthersUntouched(s, plans[0], plans[i]);
        }
        assert forall i :: 0 <= i < |plans[1..]| ==> plans[1..][i] == plans[i + 1];
      } else {
        EnsureTableFails(s, plans[0]);
      }
    }
  }

  ghost predicate TableReady(s': Schema, s: Schema, plan: Plan) {
    && plan.name in s'
    && Filled(Base(s, plan), s'[plan.name], plan)
    && (Indexed(s'[plan.name], plan) || (plan.returnAfterCreate && plan.name !in s))
    && (plan.returnAfterCreate && plan.name !in s ==> s'[plan.name].indexes == [])
  }

  /** After a run that got through, each table is its starting form, filled. */
  lemma {:induction false} EnsureTablesFills(s: Schema, plans: seq<Plan>, i: nat)
    requires AllWellMade(plans) && EnsureTables(s, plans).Done? && i < |plans|
    ensures TableReady(EnsureTables(s, plans).schema, s, plans[i])
    decreases |plans|
  {
    RestWellMade(plans);
    EnsureTablesDone(s, plans);
    EnsureTableDone(s, plans[0]);
    var s1 := EnsureTable(s, plans[0]).schema;
    if i == 0 {
      var home := EnsureTablesCarries(s1, plans[1..]);
      assert Found(s1, plans[0].name, home[plans[0].name], EnsureTables(s1, plans[1..]).schema, Names(plans[1..]));
    } else {
      assert plans[1..][i - 1] == plans[i];
      EnsureTablesFills(s1, plans[1..], i - 1);
      OthersUntouched(s, plans[0], plans[i]);
    }
  }

  // ---------------------------------------------------------------- running again

  /** The table is there, is not a legacy one, has every listed column in some spelling. */
  ghost predicate Settled(s: Schema, plan: Plan)
    requires plan.specs != []
  {
    Kept(s, plan) && Named(s[plan.name], plan) && Migratable(s, plan)
  }

  ghost predicate SameContents(t: Table, t': Table) { t'.columns == t.columns && t'.rows == t.rows }

  ghost predicate HasIndexes(s: Schema, plan: Plan) { plan.name in s && Indexed(s[plan.name], plan) }

  predicate Bare(s: Schema, table: string) { table in s && s[table].indexes == [] }

  lemma EnsureSettledTable(s: Schema, plan: Plan)
    requires WellMade(plan) && Settled(s, plan)
    ensures EnsureTable(s, plan).Done?
    ensures var s' := EnsureTable(s, plan).schema;
      && s'.Keys == s.Keys && (forall x :: x in s && x != plan.name ==> s'[x] == s[x])
      && SameContents(s[plan.name], s'[plan.name]) && (Indexed(s[plan.name], plan) ==> s' == s)
  {
    var t := s[plan.name];
    InitialHave(t);
    AddColumnsIsFixpoint(t, ColumnSet(t), plan.specs);
    FillColumns(t, plan);
    CreateIndexesSucceeds(t, plan.indexes);
    if Indexed(t, plan) {
      CreateIndexesIsFixpoint(t, plan.indexes);
      assert s[plan.name := t] == s;
    }
  }

  lemma {:induction false} EnsureSettledTables(s: Schema, plans: seq<Plan>)
    requires AllWellMade(plans) && forall i :: 0 <= i < |plans| ==> Settled(s, plans[i])
    ensures EnsureTables(s, plans).Done?
    ensures var s' := EnsureTables(s, plans).schema;
      && s'.Keys == s.Keys
      && (forall x :: x in s ==> SameContents(s[x], s'[x]) && (x !in Names(plans) ==> s'[x] == s[x]))
      && ((forall i :: 0 <= i < |plans| ==> HasIndexes(s, plans[i])) ==> s' == s)
    decreases |plans|
  {
    if plans != [] {
      RestWellMade(plans);
      EnsureSettledTable(s, plans[0]);
      var s1 := EnsureTable(s, plans[0]).schema;
      forall i | 0 <= i < |plans[1..]| ensures Settled(s1, plans[1..][i]) && s1[plans[1..][i].name] == s[plans[i + 1].name] {
        assert plans[1..][i] == plans[i + 1] && Settled(s, plans[i + 1]);
      }
      EnsureSettledTables(s1, plans[1..]);
    }
  }

  lemma RunSettles(s: Schema, plans: seq<Plan>, i: nat)
    requires AllWellMade(plans) && EnsureTables(s, plans).Done? && i < |plans|
    ensures Settled(EnsureTables(s, plans).schema, plans[i])
  {
    var s' := EnsureTables(s, plans).schema;
    var plan := plans[i];
    EnsureTablesFills(s, plans, i);
    EnsureTablesDone(s, plans);
    var t, t' := Base(s, plan), s'[plan.name];
    assert Extends(t, t') && Migratable(s, plan);
    CreatedIsNamed(plan);
    assert Ready(t, ColumnSet(t), plan.specs[0]);
    if plan.specs[0].position.After? && Has(t.columns, plan.specs[0].position.column) {
      HasMonotone(t.columns, t'.columns, plan.specs[0].position.column);
    }
  }

  // ---------------------------------------------------------------- the migration

  lemma PlansWellMade()
    ensures AllWellMade(PLANS)
  {
    JobsWellMade();
    LogsWellMade();
    StatusWellMade();
    ShopLogsWellMade();
    forall i, j | 0 <= i < j < |PLANS| ensures PLANS[i].name != PLANS[j].name { NamesDiffer(i, j); }
  }

  /** `sync_jobs` or `sync_logs` is either archived (no shop_id) or offers `tenant_id`, or `id` to place it behind. */
  predicate CanExtend(s: Schema, table: string) {
    table in s && "shop_id" in s[table].columns ==>
      "tenant_id" in s[table].columns || Has(s[table].columns, "id")
  }

  /** The migration ends without error exactly from the schemas whose kept tables can be extended. */
  lemma MigrationSucceedsIff(s: Schema)
    ensures Migrate(s).Done? <==> CanExtend(s, "sync_jobs") && CanExtend(s, "sync_logs")
  {
    PlansWellMade();
    EnsureTablesDone(s, PLANS);
    assert JOB_SPECS[0] == ColumnSpec("tenant_id", Number(0), After("id"));
    assert LOG_SPECS[0] == ColumnSpec("tenant_id", Number(0), After("id"));
    assert Migratable(s, PLANS[0]) <==> CanExtend(s, "sync_jobs");
    assert Migratable(s, PLANS[1]) <==> CanExtend(s, "sync_logs");
    assert Migratable(s, PLANS[2]);
    assert SHOP_LOG_SPECS[0].name == "shop_id";
    assert Migratable(s, PLANS[3]);
  }

  /**
   * From any schema, whether or not the run gets through: each table is found afterwards under its own name, with
   * all its columns, rows, values and indexes, or renamed to a name not in use, unchanged; no two tables end up in one;
   * and every table of the result is one of the old ones or one of the four.
   */
  lemma NothingIsLost(s: Schema) returns (home: map<string, string>)
    ensures Carries(s, home, Migrate(s).schema, Names(PLANS))
  {
    PlansWellMade();
    home := EnsureTablesCarries(s, PLANS);
  }

  /** The columns of the four tables afterwards: the old ones, and the listed ones no spelling of which existed. */
  lemma ColumnsAfterMigration(s: Schema, i: nat)
    requires Migrate(s).Done? && i < |PLANS|
    ensures PLANS[i].name in Migrate(s).schema
    ensures ColumnsAre(Base(s, PLANS[i]), Migrate(s).schema[PLANS[i].name], PLANS[i].specs)
    ensures OnlyListedAdded(Base(s, PLANS[i]), Migrate(s).schema[PLANS[i].name], PLANS[i].specs)
  {
    PlansWellMade();
    EnsureTablesFills(s, PLANS, i);
  }

  /** For any list of plans: the second run changes no column and no row, the third nothing at all. */
  lemma RunThreeTimes(s: Schema, plans: seq<Plan>)
    requires AllWellMade(plans) && EnsureTables(s, plans).Done?
    ensures EnsureTables(EnsureTables(s, plans).schema, plans).Done?
    ensures SameTables(EnsureTables(s, plans).schema, EnsureTables(EnsureTables(s, plans).schema, plans).schema)
    ensures var s2 := EnsureTables(EnsureTables(s, plans).schema, plans).schema; EnsureTables(s2, plans) == Done(s2)
  {
    var s1 := EnsureTables(s, plans).schema;
    forall i | 0 <= i < |plans| ensures Settled(s1, plans[i]) { RunSettles(s, plans, i); }
    EnsureSettledTables(s1, plans);
    var s2 := EnsureTables(s1, plans).schema;
    forall i | 0 <= i < |plans| ensures Settled(s2, plans[i]) && HasIndexes(s2, plans[i]) {
      RunSettles(s1, plans, i);
      EnsureTablesFills(s1, plans, i);
      assert Settled(s1, plans[i]);
    }
    EnsureSettledTables(s2, plans);
  }

  ghost predicate SameTables(s: Schema, s': Schema) {
    s'.Keys == s.Keys && forall x :: x in s ==> SameContents(s[x], s'[x])
  }

  /** A second run changes no column and no row, and a third changes nothing at all. */
  lemma SecondRunAddsNoColumns(s: Schema)
    requires Migrate(s).Done?
    ensures Migrate(Migrate(s).schema).Done?
    ensures SameTables(Migrate(s).schema, Migrate(Migrate(s).schema).schema)
    ensures var s2 := Migrate(Migrate(s).schema).schema; Migrate(s2) == Done(s2)
  {
    PlansWellMade();
    RunThreeTimes(s, PLANS);
  }

  lemma RunTwice(s: Schema, plans: seq<Plan>)
    requires AllWellMade(plans) && EnsureTables(s, plans).Done?
    requires forall i :: 0 <= i < |plans| ==> (plans[i].returnAfterCreate ==> plans[i].name in s)
    ensures EnsureTables(EnsureTables(s, plans).schema, plans) == Done(EnsureTables(s, plans).schema)
  {
    var s1 := EnsureTables(s, plans).schema;
    forall i | 0 <= i < |plans| ensures Settled(s1, plans[i]) && HasIndexes(s1, plans[i]) {
      RunSettles(s, plans, i);
      EnsureTablesFills(s, plans, i);
    }
    EnsureSettledTables(s1, plans);
  }

  lemma OnlyStatusReturnsEarly(i: nat)
    requires i < |PLANS| && PLANS[i].returnAfterCreate
    ensures PLANS[i].name == "shop_sync_status"
  {
    assert i == 0 || i == 1 || i == 2 || i == 3;
  }

  /** One run is final when shop_sync_status existed before. */
  lemma OneRunIsFinal(s: Schema)
    requires Migrate(s).Done? && "shop_sync_status" in s
    ensures Migrate(Migrate(s).schema) == Done(Migrate(s).schema)
  {
    PlansWellMade();
    forall i | 0 <= i < |PLANS| && PLANS[i].returnAfterCreate ensures PLANS[i].name in s { OnlyStatusReturnsEarly(i); }
    RunTwice(s, PLANS);
  }

  lemma CreatedTableGetsItsIndexesNextTime(s: Schema, plans: seq<Plan>, i: nat)
    requires AllWellMade(plans) && EnsureTables(s, plans).Done? && i < |plans|
    requires plans[i].returnAfterCreate && plans[i].name !in s
    ensures Bare(EnsureTables(s, plans).schema, plans[i].name)
    ensures EnsureTables(EnsureTables(s, plans).schema, plans).Done?
    ensures HasIndexes(EnsureTables(EnsureTables(s, plans).schema, plans).schema, plans[i])
  {
    var s1 := EnsureTables(s, plans).schema;
    EnsureTablesFills(s, plans, i);
    RunThreeTimes(s, plans);
    EnsureTablesFills(s1, plans, i);
  }

  /** When the run has to create shop_sync_status, the source returns before its indexes: they arrive with the second run. */
  lemma IndexesNeedASecondRun(s: Schema)
    requires Migrate(s).Done? && "shop_sync_status" !in s
    ensures Bare(Migrate(s).schema, "shop_sync_status")
    ensures HasIndexes(Migrate(Migrate(s).schema).schema, STATUS)
  {
    PlansWellMade();
    assert PLANS[2] == STATUS;
    CreatedTableGetsItsIndexesNextTime(s, PLANS, 2);
  }
}
