/**
 The full-suite shard planner (scripts/full_suite_shards.py): test cases are
 grouped by file, files are ordered heaviest first and dealt to the least loaded
 shard.
 */
module ShardPlan {
  import opened Basics
  import opened Sorting
  import Text
  import LptBound
  import opened FileDeal

  const SHARD_COUNT := 5
  const MAX_NODEID_BYTES := 1_100_000

  const STATIC_FILE_WEIGHTS: map<string, nat> := map[
    "tests/unit/test_runtime_production_profile.py" := 4_000,
    "tests/unit/test_runtime_recovery_coordinator.py" := 3_800,
    "tests/unit/test_runtime_recovery_artifacts.py" := 2_600,
    "tests/unit/test_runtime_recovery_service.py" := 2_400,
    "tests/unit/test_runtime_recovery_backup.py" := 1_600,
    "tests/integration/test_production_artifact_terminal_lifecycle.py" := 2_200
  ]

  datatype ContractError = ShardCount | InvalidNodeid

  // ---- Nodeids and their files ----

  /** The part of a nodeid before its first `::`. */
  function PathOf(nodeid: string): string {
    Text.Partition(nodeid, "::").0
  }

  predicate CanonicalTestPath(path: string) {
    var parts := Text.Split(path, "/");
    var name := parts[|parts| - 1];
    && '\\' !in path
    && (forall part :: part in parts ==> part !in {"", ".", ".."})
    && |parts| >= 2
    && parts[0] == "tests"
    && |name| > 3 && Text.EndsWith(name, ".py")
  }

  /** What `_file_for_nodeid` accepts; `repository` holds the regular files below the checkout. */
  predicate ValidNodeid(nodeid: string, repository: set<string>) {
    var (path, found, selection) := Text.Partition(nodeid, "::");
    && nodeid != ""
    && Text.Utf8Length(nodeid) <= MAX_NODEID_BYTES
    && (forall c :: c in nodeid ==> !Text.LineControl(c))
    && found && selection != ""
    && !Text.StartsWith(nodeid, "-")
    && CanonicalTestPath(path)
    && path in repository
  }

  // ---- The plan ----

  /** The collected cases as the planner sees them: sorted, grouped by file. */
  function SuiteOf(nodeids: seq<string>): Suite {
    Suite(Sort(nodeids, LexLe), PathOf, STATIC_FILE_WEIGHTS)
  }

  function Plan(nodeids: seq<string>, m: nat): (shards: seq<seq<string>>)
    requires m > 0
    ensures |shards| == m
  {
    var suite := SuiteOf(nodeids);
    seq(m, k requires 0 <= k < m => Sort(suite.Gather(suite.Dealt(), suite.Shards(m), k), LexLe))
  }

  /** Every case lands with all its copies on the one shard of its file, and nowhere else:
      the shards partition the cases and no file is split. */
  lemma PlanPlacesEveryCase(nodeids: seq<string>, m: nat, x: string) returns (k: nat)
    requires m > 0 && x in nodeids
    ensures k < m && SuiteOf(nodeids).OnShard(m, PathOf(x), k)
    ensures forall l :: SuiteOf(nodeids).OnShard(m, PathOf(x), l) ==> l == k
    ensures forall l :: 0 <= l < m ==>
              multiset(Plan(nodeids, m)[l])[x] == if l == k then multiset(nodeids)[x] else 0
  {
    SortMembers(nodeids, LexLe);
    k := SuiteOf(nodeids).CasePlaced(m, x);
  }

  /** Nothing is invented: a planned case was collected. */
  lemma PlanInventsNothing(nodeids: seq<string>, m: nat, k: nat, x: string)
    requires k < m && x in Plan(nodeids, m)[k]
    ensures x in nodeids
  {
    var suite := SuiteOf(nodeids);
    SortMembers(suite.Gather(suite.Dealt(), suite.Shards(m), k), LexLe);
    suite.NothingInvented(m, k, x);
    SortMembers(nodeids, LexLe);
  }

  /** The plan depends only on the multiset of collected cases, not on their order. */
  lemma PlanIsCanonical(nodeids: seq<string>, others: seq<string>, m: nat)
    requires m > 0 && multiset(nodeids) == multiset(others)
    ensures Plan(nodeids, m) == Plan(others, m)
  {
    LexIsTotalOrder();
    SortCanonical(nodeids, others, LexLe);
  }

  /** Whatever whole-file assignment a rival finds, if none of its shards weighs more than `opt`
      then no planned shard weighs more than (4/3 - 1/(3m)) of `opt`. */
  lemma PlanWithinFourThirds(nodeids: seq<string>, m: nat, rival: map<string, nat>, opt: nat, k: nat)
    requires k < m && SuiteOf(nodeids).Rival(rival, m)
    requires forall i :: 0 <= i < m ==> SuiteOf(nodeids).RivalLoad(rival, m, i) <= opt
    ensures 3 * m * SuiteOf(nodeids).DealtLoad(m, k) <= (4 * m - 1) * opt
    ensures m == SHARD_COUNT ==> 15 * SuiteOf(nodeids).DealtLoad(m, k) <= 19 * opt
  {
    SuiteOf(nodeids).WithinFourThirds(m, rival, opt, k);
  }

  // ---- The planner itself ----

  method PlanShards(nodeids: seq<string>, shardCount: nat, repository: set<string>)
    returns (r: Result<seq<seq<string>>, ContractError>)
    ensures r.Ok? <==> shardCount == SHARD_COUNT && forall x :: x in nodeids ==> ValidNodeid(x, repository)
    ensures r.Ok? ==> r.value == Plan(nodeids, SHARD_COUNT)
  {
    if shardCount != SHARD_COUNT {
      return Err(ShardCount);
    }
    var suite := SuiteOf(nodeids);
    SortMembers(nodeids, LexLe);
    var files := GroupByFile(suite, x => ValidNodeid(x, repository));
    if files.None? {
      return Err(InvalidNodeid);
    }
    var grouped := files.value;
    var weighted := Sort(grouped.0, suite.Order());
    SortMembers(grouped.0, suite.Order());
    var shards := DealToShards(suite, weighted, suite.Weights(weighted), grouped.1, shardCount);
    r := Ok(seq(shardCount, k requires 0 <= k < shardCount => Sort(shards[k], LexLe)));
  }
}
