/** What the sync migration wants of each of its four tables, and what is true of those lists. */
module SyncPlans {
  import opened Options
  import opened Text
  import opened Ddl

  /** What the migration wants of one table. */
  datatype Plan = Plan(
    name: string,
    legacyPrefix: Option<string>,       // archive a table of this name that has no shop_id
    created: seq<string>,               // columns of the table when it has to be created
    specs: seq<ColumnSpec>,
    indexes: seq<IndexSpec>,
    returnAfterCreate: bool)

  /** Every column after the first is placed behind the one listed before it, or at the end. */
  ghost predicate Chained(specs: seq<ColumnSpec>) {
    forall i :: 0 < i < |specs| && specs[i].position.After? ==> specs[i].position.column == specs[i - 1].name
  }

  ghost predicate LowerNames(specs: seq<ColumnSpec>) {
    forall i :: 0 <= i < |specs| ==> Lower(specs[i].name) == specs[i].name
  }

  // ---------------------------------------------------------------- the four tables

  const JOB_SPECS: seq<ColumnSpec> := [
    ColumnSpec("tenant_id", Number(0), After("id")),
    ColumnSpec("shop_id", Number(0), After("tenant_id")),
    ColumnSpec("platform", Characters("tiktok"), After("shop_id")),
    ColumnSpec("job_type", Characters("shop_orders"), After("platform")),
    ColumnSpec("status", Characters("queued"), After("job_type")),
    ColumnSpec("priority", Number(100), After("status")),
    ColumnSpec("attempt_count", Number(0), After("priority")),
    ColumnSpec("max_attempts", Number(5), After("attempt_count")),
    ColumnSpec("locked_by", Null, After("max_attempts")),
    ColumnSpec("locked_at", Null, After("locked_by")),
    ColumnSpec("started_at", Null, After("locked_at")),
    ColumnSpec("finished_at", Null, After("started_at")),
    ColumnSpec("next_retry_at", Null, After("finished_at")),
    ColumnSpec("error_message", Null, After("next_retry_at")),
    ColumnSpec("created_at", CurrentTimestamp, Last),
    ColumnSpec("updated_at", CurrentTimestamp, Last)]

  const JOB_COLUMNS: seq<string> := [
    "id", "tenant_id", "shop_id", "platform", "job_type", "status", "priority", "attempt_count", "max_attempts",
    "locked_by", "locked_at", "started_at", "finished_at", "next_retry_at", "error_message", "created_at",
    "updated_at"]

  const JOB_INDEXES: seq<IndexSpec> := [
    IndexSpec("idx_sync_jobs_tenant_status", ["tenant_id", "status"]),
    IndexSpec("idx_sync_jobs_shop_status", ["shop_id", "status"]),
    IndexSpec("idx_sync_jobs_platform_status", ["platform", "status"]),
    IndexSpec("idx_sync_jobs_next_retry", ["next_retry_at"])]

  const LOG_SPECS: seq<ColumnSpec> := [
    ColumnSpec("tenant_id", Number(0), After("id")),
    ColumnSpec("shop_id", Number(0), After("tenant_id")),
    ColumnSpec("platform", Characters("tiktok"), After("shop_id")),
    ColumnSpec("sync_job_id", Null, After("platform")),
    ColumnSpec("level", Characters("info"), After("sync_job_id")),
    ColumnSpec("message", Characters(""), After("level")),
    ColumnSpec("context_json", Null, After("message")),
    ColumnSpec("created_at", CurrentTimestamp, Last)]

  const LOG_COLUMNS: seq<string> := [
    "id", "tenant_id", "shop_id", "platform", "sync_job_id", "level", "message", "context_json", "created_at"]

  const LOG_INDEXES: seq<IndexSpec> := [
    IndexSpec("idx_sync_logs_shop_created", ["shop_id", "created_at"]),
    IndexSpec("idx_sync_logs_job", ["sync_job_id"]),
    IndexSpec("idx_sync_logs_tenant_created", ["tenant_id", "created_at"])]

  const STATUS_SPECS: seq<ColumnSpec> := [
    ColumnSpec("shop_id", Number(0), First),
    ColumnSpec("tenant_id", Number(0), After("shop_id")),
    ColumnSpec("platform", Characters("tiktok"), After("tenant_id")),
    ColumnSpec("sync_status", Characters("idle"), After("platform")),
    ColumnSpec("last_sync_at", Null, After("sync_status")),
    ColumnSpec("last_success_sync_at", Null, After("last_sync_at")),
    ColumnSpec("last_error", Null, After("last_success_sync_at")),
    ColumnSpec("last_error_code", Null, After("last_error")),
    ColumnSpec("sync_fail_count", Number(0), After("last_error_code")),
    ColumnSpec("is_token_valid", Number(1), After("sync_fail_count")),
    ColumnSpec("token_expired_at", Null, After("is_token_valid")),
    ColumnSpec("current_job_id", Null, After("token_expired_at")),
    ColumnSpec("sync_lock_until", Null, After("current_job_id")),
    ColumnSpec("avg_sync_ms", Null, After("sync_lock_until")),
    ColumnSpec("updated_at", CurrentTimestamp, Last)]

  const STATUS_COLUMNS: seq<string> := [
    "shop_id", "tenant_id", "platform", "sync_status", "last_sync_at", "last_success_sync_at", "last_error",
    "last_error_code", "sync_fail_count", "is_token_valid", "token_expired_at", "current_job_id", "sync_lock_until",
    "avg_sync_ms", "updated_at"]

  const STATUS_INDEXES: seq<IndexSpec> := [
    IndexSpec("idx_shop_sync_status_tenant", ["tenant_id", "sync_status"]),
    IndexSpec("idx_shop_sync_status_lock", ["sync_lock_until"])]

  const SHOP_LOG_SPECS: seq<ColumnSpec> := [
    ColumnSpec("shop_id", Null, After("tenant_id")),
    ColumnSpec("platform_shop_id", Null, After("shop_id")),
    ColumnSpec("platform", Characters("tiktok"), After("platform_shop_id"))]

  const SHOP_LOG_COLUMNS: seq<string> := [
    "id", "tenant_id", "shop_id", "platform_shop_id", "platform", "status", "message", "error_message",
    "orders_fetched", "fetched_orders_count", "inserted_orders_count", "updated_orders_count",
    "failed_orders_count", "duration_ms", "started_at", "finished_at", "created_at"]

  const JOBS: Plan :=
    Plan("sync_jobs", Some("sync_jobs_legacy_v0"), JOB_COLUMNS, JOB_SPECS, JOB_INDEXES, false)
  const LOGS: Plan :=
    Plan("sync_logs", Some("sync_logs_legacy_v0"), LOG_COLUMNS, LOG_SPECS, LOG_INDEXES, false)
  const STATUS: Plan :=
    Plan("shop_sync_status", None, STATUS_COLUMNS, STATUS_SPECS, STATUS_INDEXES, true)
  const SHOP_LOGS: Plan :=
    Plan("sync_shop_logs", Some("sync_shop_logs_legacy_v0"), SHOP_LOG_COLUMNS, SHOP_LOG_SPECS, [], false)

  const PLANS: seq<Plan> := [JOBS, LOGS, STATUS, SHOP_LOGS]

  // ---------------------------------------------------------------- facts about the constants

  ghost predicate Listed(names: seq<string>, specs: seq<ColumnSpec>, skip: nat) {
    && |names| == |specs| + skip
    && (forall i :: 0 <= i < |specs| ==> names[i + skip] == specs[i].name)
  }

  lemma JobsChained()
    ensures Chained(JOB_SPECS)
  {
    var s := JOB_SPECS;
    forall i | 0 < i < |s| && s[i].position.After? ensures s[i].position.column == s[i - 1].name {
      if i < 8 {
        assert i == 1 || i == 2 || i == 3 || i == 4 || i == 5 || i == 6 || i == 7;
      } else {
        assert i == 8 || i == 9 || i == 10 || i == 11 || i == 12 || i == 13 || i == 14 || i == 15;
      }
    }
  }

  lemma JobsListed()
    ensures Listed(JOB_COLUMNS, JOB_SPECS, 1)
  {
    var s := JOB_SPECS;
    forall i | 0 <= i < |s| ensures JOB_COLUMNS[i + 1] == s[i].name {
      if i < 8 {
        assert i == 0 || i == 1 || i == 2 || i == 3 || i == 4 || i == 5 || i == 6 || i == 7;
      } else {
        assert i == 8 || i == 9 || i == 10 || i == 11 || i == 12 || i == 13 || i == 14 || i == 15;
      }
    }
  }

  lemma LogsChained()
    ensures Chained(LOG_SPECS)
  {
  }

  lemma LogsListed()
    ensures Listed(LOG_COLUMNS, LOG_SPECS, 1)
  {
  }

  lemma StatusChained()
    ensures Chained(STATUS_SPECS)
  {
    var s := STATUS_SPECS;
    forall i | 0 < i < |s| && s[i].position.After? ensures s[i].position.column == s[i - 1].name {
      if i < 8 {
        assert i == 1 || i == 2 || i == 3 || i == 4 || i == 5 || i == 6 || i == 7;
      } else {
        assert i == 8 || i == 9 || i == 10 || i == 11 || i == 12 || i == 13 || i == 14;
      }
    }
  }

  lemma StatusListed()
    ensures Listed(STATUS_COLUMNS, STATUS_SPECS, 0)
  {
    var s := STATUS_SPECS;
    forall i | 0 <= i < |s| ensures STATUS_COLUMNS[i] == s[i].name {
      if i < 8 {
        assert i == 0 || i == 1 || i == 2 || i == 3 || i == 4 || i == 5 || i == 6 || i == 7;
      } else {
        assert i == 8 || i == 9 || i == 10 || i == 11 || i == 12 || i == 13 || i == 14;
      }
    }
  }

  lemma ShopLogsChained()
    ensures Chained(SHOP_LOG_SPECS)
  {
  }

  predicate AllLower(s: string) { forall i :: 0 <= i < |s| ==> !('A' <= s[i] <= 'Z') }

  lemma LowerOfLower(s: string)
    requires AllLower(s)
    ensures Lower(s) == s
  {
  }

  /** The column names of the plans are in lower case. */
  lemma LiteralsAreLower()
    ensures AllLower("tenant_id") && AllLower("shop_id") && AllLower("platform") && AllLower("job_type")
    ensures AllLower("status") && AllLower("priority") && AllLower("attempt_count") && AllLower("max_attempts")
    ensures AllLower("locked_by") && AllLower("locked_at") && AllLower("started_at") && AllLower("finished_at")
  {
  }

  lemma LiteralsAreLower2()
    ensures AllLower("next_retry_at") && AllLower("error_message") && AllLower("created_at") && AllLower("updated_at")
    ensures AllLower("sync_job_id") && AllLower("level") && AllLower("message") && AllLower("context_json")
    ensures AllLower("sync_status") && AllLower("last_sync_at") && AllLower("last_success_sync_at")
  {
  }

  lemma LiteralsAreLower3()
    ensures AllLower("last_error") && AllLower("last_error_code") && AllLower("sync_fail_count")
    ensures AllLower("is_token_valid") && AllLower("token_expired_at") && AllLower("current_job_id")
    ensures AllLower("sync_lock_until") && AllLower("avg_sync_ms") && AllLower("platform_shop_id")
  {
  }

  lemma AllLowerNames(specs: seq<ColumnSpec>)
    requires forall i :: 0 <= i < |specs| ==> AllLower(specs[i].name)
    ensures LowerNames(specs)
  {
    forall i | 0 <= i < |specs| ensures Lower(specs[i].name) == specs[i].name { LowerOfLower(specs[i].name); }
  }

  lemma JobsLower()
    ensures LowerNames(JOB_SPECS)
  {
    LiteralsAreLower();
    LiteralsAreLower2();
    var s := JOB_SPECS;
    forall i | 0 <= i < |s| ensures AllLower(s[i].name) {
      if i < 8 {
        assert i == 0 || i == 1 || i == 2 || i == 3 || i == 4 || i == 5 || i == 6 || i == 7;
      } else {
        assert i == 8 || i == 9 || i == 10 || i == 11 || i == 12 || i == 13 || i == 14 || i == 15;
      }
    }
    AllLowerNames(s);
  }

  lemma LogsLower()
    ensures LowerNames(LOG_SPECS)
  {
    LiteralsAreLower();
    LiteralsAreLower2();
    var s := LOG_SPECS;
    forall i | 0 <= i < |s| ensures AllLower(s[i].name) {
      assert i == 0 || i == 1 || i == 2 || i == 3 || i == 4 || i == 5 || i == 6 || i == 7;
    }
    AllLowerNames(s);
  }

  lemma StatusLower()
    ensures LowerNames(STATUS_SPECS)
  {
    LiteralsAreLower();
    LiteralsAreLower2();
    LiteralsAreLower3();
    var s := STATUS_SPECS;
    forall i | 0 <= i < |s| ensures AllLower(s[i].name) {
      if i < 8 {
        assert i == 0 || i == 1 || i == 2 || i == 3 || i == 4 || i == 5 || i == 6 || i == 7;
      } else {
        assert i == 8 || i == 9 || i == 10 || i == 11 || i == 12 || i == 13 || i == 14;
      }
    }
    AllLowerNames(s);
  }

  // ---------------------------------------------------------------- what the proofs need of a plan

  predicate InSpecs(specs: seq<ColumnSpec>, c: string) { exists k :: 0 <= k < |specs| && specs[k].name == c }

  ghost predicate IndexesListed(plan: Plan) {
    forall i, j :: 0 <= i < |plan.indexes| && 0 <= j < |plan.indexes[i].columns| ==>
      InSpecs(plan.specs, plan.indexes[i].columns[j])
  }

  ghost predicate SpecsCreated(plan: Plan) {
    forall k :: 0 <= k < |plan.specs| ==> plan.specs[k].name in plan.created
  }

  /** Longer than every table name of the migration, so an archived table is never one of them. */
  const LONGEST: nat := 16

  ghost predicate WellMade(plan: Plan) {
    && plan.specs != [] && Chained(plan.specs) && LowerNames(plan.specs)
    && IndexesListed(plan) && SpecsCreated(plan)
    && |plan.name| <= LONGEST
    && (plan.returnAfterCreate ==> plan.legacyPrefix.None?)
    && (plan.legacyPrefix.Some? ==> |plan.legacyPrefix.value| > LONGEST && "shop_id" in plan.created)
  }

  lemma ListedAreCreated(plan: Plan, skip: nat)
    requires Listed(plan.created, plan.specs, skip)
    ensures SpecsCreated(plan)
  {
    forall k | 0 <= k < |plan.specs| ensures plan.specs[k].name in plan.created { assert plan.created[k + skip] == plan.specs[k].name; }
  }

  lemma JobIndexes()
    ensures IndexesListed(JOBS)
  {
    var s := JOB_SPECS;
    assert s[0].name == "tenant_id" && s[1].name == "shop_id" && s[2].name == "platform" && s[4].name == "status";
    assert s[12].name == "next_retry_at";
  }

  lemma LogIndexes()
    ensures IndexesListed(LOGS)
  {
    var s := LOG_SPECS;
    assert s[0].name == "tenant_id" && s[1].name == "shop_id" && s[3].name == "sync_job_id" && s[7].name == "created_at";
  }

  lemma StatusIndexes()
    ensures IndexesListed(STATUS)
  {
    var s := STATUS_SPECS;
    assert s[1].name == "tenant_id" && s[3].name == "sync_status" && s[12].name == "sync_lock_until";
  }

  lemma JobsWellMade()
    ensures WellMade(JOBS)
  {
    JobsChained();
    JobsLower();
    JobsListed();
    JobIndexes();
    ListedAreCreated(JOBS, 1);
    assert JOB_COLUMNS[2] == "shop_id";
  }

  lemma LogsWellMade()
    ensures WellMade(LOGS)
  {
    LogsChained();
    LogsLower();
    LogsListed();
    LogIndexes();
    ListedAreCreated(LOGS, 1);
    assert LOG_COLUMNS[2] == "shop_id";
  }

  lemma StatusWellMade()
    ensures WellMade(STATUS)
  {
    StatusChained();
    StatusLower();
    StatusListed();
    StatusIndexes();
    ListedAreCreated(STATUS, 0);
  }

  lemma ShopLogsWellMade()
    ensures WellMade(SHOP_LOGS)
  {
    ShopLogsChained();
    LiteralsAreLower();
    LiteralsAreLower3();
    AllLowerNames(SHOP_LOG_SPECS);
    var c := SHOP_LOG_COLUMNS;
    assert c[2] == "shop_id" && c[3] == "platform_shop_id" && c[4] == "platform";
  }

  /** The tables have different names. */
  lemma NamesDiffer(i: nat, j: nat)
    requires i < j < |PLANS|
    ensures PLANS[i].name != PLANS[j].name
  {
    assert JOBS.name[5] != LOGS.name[5];
    assert |JOBS.name| == 9 && |LOGS.name| == 9 && |STATUS.name| == 16 && |SHOP_LOGS.name| == 14;
  }
}
