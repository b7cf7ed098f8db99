/**
 The arithmetic of the shard planner's greedy loop: files sorted heaviest first,
 each put on the least loaded shard (longest processing time first).

 Jobs are positions in a non-increasing sequence of weights, an assignment is a
 sequence of shard numbers of the same length.
 */
module LptBound {
  import opened Basics

  /** `a` puts each of its jobs on one of `m` shards. */
  ghost predicate Assignment(a: seq<nat>, m: nat) {
    forall i :: 0 <= i < |a| ==> a[i] < m
  }

  predicate NonIncreasing(w: seq<nat>) {
    forall i, j :: 0 <= i <= j < |w| ==> w[j] <= w[i]
  }

  /** The weight that assignment `a` puts on shard `k`. */
  function Load(w: seq<nat>, a: seq<nat>, k: nat): nat
    requires |w| == |a|
  {
    if |w| == 0 then 0
    else
      var n := |w| - 1;
      Load(w[..n], a[..n], k) + if a[n] == k then w[n] else 0
  }

  function Loads(w: seq<nat>, a: seq<nat>, m: nat): (loads: seq<nat>)
    requires |w| == |a|
    ensures |loads| == m
    ensures forall k :: 0 <= k < m ==> loads[k] == Load(w, a, k)
  {
    seq(m, k requires 0 <= k < m => Load(w, a, k))
  }

  /** The load of the heaviest shard. */
  function Heaviest(w: seq<nat>, a: seq<nat>, m: nat): (h: nat)
    requires |w| == |a|
    ensures forall k :: 0 <= k < m ==> Load(w, a, k) <= h
    ensures m > 0 ==> exists k :: 0 <= k < m && Load(w, a, k) == h
  {
    if m == 0 then 0
    else
      var rest := Heaviest(w, a, m - 1);
      if rest <= Load(w, a, m - 1) then Load(w, a, m - 1)
      else
        assert m - 1 > 0 ==> exists k :: 0 <= k < m - 1 && Load(w, a, k) == rest;
        rest
  }

  /** The first of the least loaded shards: `min(range(m), key=(loads[k], k))`. */
  function Lightest(loads: seq<nat>): (k: nat)
    requires |loads| > 0
    ensures k < |loads|
    ensures forall i :: 0 <= i < |loads| ==> loads[k] <= loads[i]
    ensures forall i :: 0 <= i < k ==> loads[k] < loads[i]
  {
    if |loads| == 1 then 0
    else
      var k := Lightest(loads[..|loads| - 1]);
      if loads[|loads| - 1] < loads[k] then |loads| - 1 else k
  }

  /** The planner's assignment of weights `w` to `m` shards. */
  function Greedy(w: seq<nat>, m: nat): (a: seq<nat>)
    requires m > 0
    ensures |a| == |w|
    ensures Assignment(a, m)
  {
    if |w| == 0 then []
    else
      var a := Greedy(w[..|w| - 1], m);
      a + [Lightest(Loads(w[..|w| - 1], a, m))]
  }

  function Total(w: seq<nat>): nat {
    if |w| == 0 then 0 else Total(w[..|w| - 1]) + w[|w| - 1]
  }

  // ---- Loads of prefixes, and conservation of weight ----

  lemma {:induction false} LoadOfPrefix(w: seq<nat>, a: seq<nat>, n: nat, k: nat)
    requires |w| == |a| && n <= |w|
    ensures Load(w[..n], a[..n], k) <= Load(w, a, k)
  {
    if n < |w| {
      LoadOfPrefix(w[..|w| - 1], a[..|w| - 1], n, k);
      assert w[..|w| - 1][..n] == w[..n] && a[..|w| - 1][..n] == a[..n];
    } else {
      assert w[..n] == w && a[..n] == a;
    }
  }

  lemma {:induction false} GreedyOfPrefix(w: seq<nat>, n: nat, m: nat)
    requires m > 0 && n <= |w|
    ensures Greedy(w[..n], m) == Greedy(w, m)[..n]
  {
    if n == |w| {
      assert w[..n] == w;
    } else {
      GreedyOfPrefix(w[..|w| - 1], n, m);
      assert w[..|w| - 1][..n] == w[..n];
      assert Greedy(w, m)[..|w| - 1] == Greedy(w[..|w| - 1], m);
    }
  }

  /** Weight on the first `m` shards. */
  function LoadSum(w: seq<nat>, a: seq<nat>, m: nat): nat
    requires |w| == |a|
  {
    if m == 0 then 0 else LoadSum(w, a, m - 1) + Load(w, a, m - 1)
  }

  lemma {:induction false} LoadSumStep(w: seq<nat>, a: seq<nat>, m: nat)
    requires |w| == |a| > 0
    ensures var n := |w| - 1;
            LoadSum(w, a, m) == LoadSum(w[..n], a[..n], m) + if a[n] < m then w[n] else 0
  {
    if m > 0 {
      LoadSumStep(w, a, m - 1);
    }
  }

  /** No weight is lost or invented: the shard loads add up to the total weight. */
  lemma {:induction false} LoadsConserveWeight(w: seq<nat>, a: seq<nat>, m: nat)
    requires |w| == |a| && Assignment(a, m)
    ensures LoadSum(w, a, m) == Total(w)
  {
    if |w| == 0 {
      LoadSumOfNothing(m);
    } else {
      LoadsConserveWeight(w[..|w| - 1], a[..|w| - 1], m);
      LoadSumStep(w, a, m);
    }
  }

  lemma {:induction false} LoadSumOfNothing(m: nat)
    ensures LoadSum([], [], m) == 0
  {
    if m > 0 {
      LoadSumOfNothing(m - 1);
    }
  }

  lemma {:induction false} LoadSumBounds(w: seq<nat>, a: seq<nat>, m: nat, low: nat, high: nat)
    requires |w| == |a|
    requires forall k :: 0 <= k < m ==> low <= Load(w, a, k) <= high
    ensures m * low <= LoadSum(w, a, m) <= m * high
  {
    if m > 0 {
      LoadSumBounds(w, a, m - 1, low, high);
      assert m * low == (m - 1) * low + low;
      assert m * high == (m - 1) * high + high;
    }
  }

  // ---- Counting jobs per shard ----

  function Count(a: seq<nat>, k: nat): nat {
    if |a| == 0 then 0 else Count(a[..|a| - 1], k) + if a[|a| - 1] == k then 1 else 0
  }

  function CountSum(a: seq<nat>, m: nat): nat {
    if m == 0 then 0 else CountSum(a, m - 1) + Count(a, m - 1)
  }

  /** The shards among the first `m` that hold exactly one job. */
  function SoloShards(a: seq<nat>, m: nat): (s: set<nat>)
    ensures forall k: nat :: k in s <==> k < m && Count(a, k) == 1
  {
    if m == 0 then {} else SoloShards(a, m - 1) + if Count(a, m - 1) == 1 then {m - 1} else {}
  }

  lemma {:induction false} CountSumStep(a: seq<nat>, m: nat)
    requires |a| > 0
    ensures CountSum(a, m) == CountSum(a[..|a| - 1], m) + if a[|a| - 1] < m then 1 else 0
  {
    if m > 0 {
      CountSumStep(a, m - 1);
    }
  }

  lemma {:induction false} CountsAreJobs(a: seq<nat>, m: nat)
    requires Assignment(a, m)
    ensures CountSum(a, m) == |a|
  {
    if |a| > 0 {
      CountsAreJobs(a[..|a| - 1], m);
      CountSumStep(a, m);
    } else {
      CountSumOfNothing(m);
    }
  }

  lemma {:induction false} CountSumOfNothing(m: nat)
    ensures CountSum([], m) == 0
  {
    if m > 0 {
      CountSumOfNothing(m - 1);
    }
  }

  lemma {:induction false} ManySolos(a: seq<nat>, m: nat)
    requires forall k :: 0 <= k < m ==> Count(a, k) >= 1
    ensures |SoloShards(a, m)| >= 2 * m - CountSum(a, m)
  {
    if m > 0 {
      ManySolos(a, m - 1);
    }
  }

  lemma {:induction false} FewSolos(a: seq<nat>, m: nat)
    requires forall k :: 0 <= k < m ==> Count(a, k) <= 2
    ensures |SoloShards(a, m)| <= 2 * m - CountSum(a, m)
  {
    if m > 0 {
      FewSolos(a, m - 1);
    }
  }

  lemma {:induction false} CountHasJob(a: seq<nat>, k: nat) returns (i: nat)
    requires Count(a, k) >= 1
    ensures i < |a| && a[i] == k
  {
    if a[|a| - 1] == k {
      i := |a| - 1;
    } else {
      i := CountHasJob(a[..|a| - 1], k);
    }
  }

  lemma {:induction false} JobIsCounted(a: seq<nat>, i: nat)
    requires i < |a|
    ensures Count(a, a[i]) >= 1
  {
    if i < |a| - 1 {
      JobIsCounted(a[..|a| - 1], i);
    }
  }

  lemma {:induction false} PairIsCounted(a: seq<nat>, i: nat, j: nat)
    requires i < j < |a| && a[i] == a[j]
    ensures Count(a, a[i]) >= 2
  {
    if j < |a| - 1 {
      PairIsCounted(a[..|a| - 1], i, j);
    } else {
      JobIsCounted(a[..|a| - 1], i);
    }
  }

  /** A shard that holds two jobs holds them at two positions. */
  lemma {:induction false} SharedJobHasPartner(a: seq<nat>, i: nat) returns (j: nat)
    requires i < |a| && Count(a, a[i]) >= 2
    ensures j < |a| && j != i && a[j] == a[i]
  {
    var n := |a| - 1;
    if i == n {
      j := CountHasJob(a[..n], a[n]);
    } else if a[n] == a[i] {
      j := n;
    } else {
      j := SharedJobHasPartner(a[..n], i);
    }
  }

  lemma {:induction false} DistinctImages(a: seq<nat>, t: nat)
    requires t <= |a|
    requires forall i, j :: 0 <= i < j < t ==> a[i] != a[j]
    ensures |set i | 0 <= i < t :: a[i]| == t
  {
    if t > 0 {
      DistinctImages(a, t - 1);
      var rest := set i | 0 <= i < t - 1 :: a[i];
      assert a[t - 1] !in rest;
      assert (set i | 0 <= i < t :: a[i]) == rest + {a[t - 1]};
    }
  }

  lemma {:induction false} ImagesBounded(a: seq<nat>, t: nat)
    requires t <= |a|
    ensures |set i | 0 <= i < t :: a[i]| <= t
  {
    if t > 0 {
      ImagesBounded(a, t - 1);
      assert (set i | 0 <= i < t :: a[i]) == (set i | 0 <= i < t - 1 :: a[i]) + {a[t - 1]};
    }
  }

  /** More solo shards than `t` jobs can explain: some solo job comes at or after `t`. */
  lemma LateSolo(a: seq<nat>, m: nat, t: nat) returns (i: nat)
    requires t < |SoloShards(a, m)|
    ensures t <= i < |a| && a[i] < m && Count(a, a[i]) == 1
  {
    var early := set i | 0 <= i < t && i < |a| :: a[i];
    var bound := if t <= |a| then t else |a|;
    assert early == set i | 0 <= i < bound :: a[i];
    ImagesBounded(a, bound);
    if SoloShards(a, m) <= early {
      SubsetSize(SoloShards(a, m), early);
      assert false;
    }
    var k :| k in SoloShards(a, m) && k !in early;
    i := CountHasJob(a, k);
  }

  /** More jobs before `t` than solo shards: some job before `t` shares its shard. */
  lemma EarlyShared(a: seq<nat>, m: nat, t: nat) returns (i: nat)
    requires Assignment(a, m) && t <= |a| && |SoloShards(a, m)| < t
    ensures i < t && Count(a, a[i]) >= 2
  {
    if forall i :: 0 <= i < t ==> Count(a, a[i]) == 1 {
      forall i, j | 0 <= i < j < t
        ensures a[i] != a[j]
      {
        if a[i] == a[j] {
          PairIsCounted(a, i, j);
        }
      }
      DistinctImages(a, t);
      var images := set i | 0 <= i < t :: a[i];
      SubsetSize(images, SoloShards(a, m));
      assert false;
    }
    i :| 0 <= i < t && Count(a, a[i]) != 1;
    JobIsCounted(a, i);
  }

  // ---- Weight of counted jobs ----

  lemma {:induction false} LoadAtLeastCount(w: seq<nat>, a: seq<nat>, k: nat, unit: nat)
    requires |w| == |a| && forall i :: 0 <= i < |w| ==> unit <= w[i]
    ensures Count(a, k) * unit <= Load(w, a, k)
  {
    if |w| > 0 {
      LoadAtLeastCount(w[..|w| - 1], a[..|w| - 1], k, unit);
      var c := Count(a[..|w| - 1], k);
      assert (c + 1) * unit == c * unit + unit;
    }
  }

  lemma {:induction false} LoadOfNone(w: seq<nat>, a: seq<nat>, k: nat)
    requires |w| == |a| && Count(a, k) == 0
    ensures Load(w, a, k) == 0
  {
    if |w| > 0 {
      LoadOfNone(w[..|w| - 1], a[..|w| - 1], k);
    }
  }

  lemma {:induction false} LoadOfSolo(w: seq<nat>, a: seq<nat>, i: nat)
    requires |w| == |a| && i < |a| && Count(a, a[i]) == 1
    ensures Load(w, a, a[i]) == w[i]
  {
    var n := |a| - 1;
    if i == n {
      LoadOfNone(w[..n], a[..n], a[i]);
    } else {
      JobIsCounted(a[..n], i);
      LoadOfSolo(w[..n], a[..n], i);
    }
  }

  lemma {:induction false} LoadHasJob(w: seq<nat>, a: seq<nat>, i: nat)
    requires |w| == |a| && i < |a|
    ensures w[i] <= Load(w, a, a[i])
  {
    if i < |a| - 1 {
      LoadHasJob(w[..|a| - 1], a[..|a| - 1], i);
    }
  }

  lemma {:induction false} LoadOfPair(w: seq<nat>, a: seq<nat>, i: nat, j: nat)
    requires |w| == |a| && i < j < |a| && a[i] == a[j]
    ensures w[i] + w[j] <= Load(w, a, a[i])
  {
    var n := |a| - 1;
    if j == n {
      LoadHasJob(w[..n], a[..n], i);
    } else {
      LoadOfPair(w[..n], a[..n], i, j);
    }
  }

  // ---- The bound for one greedy step ----

  lemma AtMostTwo(w: seq<nat>, b: seq<nat>, k: nat, opt: nat)
    requires |b| == |w| > 0 && NonIncreasing(w) && Load(w, b, k) <= opt < 3 * w[|w| - 1]
    ensures Count(b, k) <= 2
  {
    LoadAtLeastCount(w, b, k, w[|w| - 1]);
  }

  /** The other assignment pairs two jobs that are both among its `2m - n + 1` heaviest. */
  lemma PackedPair(w: seq<nat>, b: seq<nat>, m: nat, opt: nat) returns (y: nat)
    requires |b| == |w| > 0 && Assignment(b, m) && forall k :: 0 <= k < m ==> Load(w, b, k) <= opt
    requires NonIncreasing(w) && opt < 3 * w[|w| - 1]
    requires 2 * m - |w| < |w|
    ensures |w| <= 2 * m && y <= 2 * m - |w| && w[y] + w[|w| - 1] <= opt
  {
    forall k | 0 <= k < m
      ensures Count(b, k) <= 2
    {
      AtMostTwo(w, b, k, opt);
    }
    CountsAreJobs(b, m);
    FewSolos(b, m);
    y := EarlyShared(b, m, 2 * m - |w| + 1);
    var z := SharedJobHasPartner(b, y);
    if y < z {
      LoadOfPair(w, b, y, z);
    } else {
      LoadOfPair(w, b, z, y);
    }
  }

  /** Some shard of the planner holds a single job that is not among its `2m - n - 1` heaviest. */
  lemma LooseSolo(w: seq<nat>, a: seq<nat>, m: nat) returns (x: nat)
    requires |a| == |w| < 2 * m && Assignment(a, m)
    requires forall k :: 0 <= k < m ==> Count(a, k) >= 1
    ensures 2 * m - |w| - 1 <= x < |w| && a[x] < m && Load(w, a, a[x]) == w[x]
  {
    CountsAreJobs(a, m);
    ManySolos(a, m);
    x := LateSolo(a, m, 2 * m - |w| - 1);
    LoadOfSolo(w, a, x);
  }

  /** The least load of the first `j` jobs, plus job `j`, when every job is over a third of `opt`:
      then no shard of the other assignment holds three jobs, and the step stays within `opt`. */
  lemma HeavyStep(w: seq<nat>, a: seq<nat>, least: nat, b: seq<nat>, m: nat, opt: nat)
    requires m > 0 && |w| > 0 && NonIncreasing(w)
    requires |b| == |w| && Assignment(b, m) && forall k :: 0 <= k < m ==> Load(w, b, k) <= opt
    requires |a| == |w| - 1 && Assignment(a, m)
    requires forall k :: 0 <= k < m ==> least <= Load(w[..|a|], a, k)
    requires opt < 3 * w[|w| - 1]
    ensures least + w[|w| - 1] <= opt
  {
    var j := |w| - 1;
    if k :| 0 <= k < m && Count(a, k) == 0 {
      LoadOfNone(w[..j], a, k);
      LoadHasJob(w, b, j);
    } else {
      CountsAreJobs(a, m);
      CountSumAtLeast(a, m);
      var y := PackedPair(w, b, m, opt);
      var x := LooseSolo(w[..j], a, m);
    }
  }

  lemma {:induction false} CountSumAtLeast(a: seq<nat>, m: nat)
    requires forall k :: 0 <= k < m ==> Count(a, k) >= 1
    ensures CountSum(a, m) >= m
  {
    if m > 0 {
      CountSumAtLeast(a, m - 1);
    }
  }

  /** The same step when the job is at most a third of `opt`: averaging is enough. */
  lemma LightStep(w: seq<nat>, a: seq<nat>, least: nat, b: seq<nat>, m: nat, opt: nat)
    requires m > 0 && |w| > 0
    requires |b| == |w| && Assignment(b, m) && forall k :: 0 <= k < m ==> Load(w, b, k) <= opt
    requires |a| == |w| - 1 && Assignment(a, m)
    requires forall k :: 0 <= k < m ==> least <= Load(w[..|a|], a, k)
    requires 3 * w[|w| - 1] <= opt
    ensures 3 * m * (least + w[|w| - 1]) <= (4 * m - 1) * opt
  {
    var j := |w| - 1;
    LoadsConserveWeight(w, b, m);
    LoadsConserveWeight(w[..j], a, m);
    LoadSumBounds(w, b, m, 0, opt);
    var high := Heaviest(w[..j], a, m);
    LoadSumBounds(w[..j], a, m, least, high);
    StepArithmetic(m, least, w[j], opt);
  }

  lemma StepArithmetic(m: nat, least: nat, last: nat, opt: nat)
    requires m > 0 && m * least + last <= m * opt && 3 * last <= opt
    ensures 3 * m * (least + last) <= (4 * m - 1) * opt
  {
    calc {
      3 * m * (least + last);
    ==
      3 * (m * least + last) + 3 * (m * last - last);
    <=
      3 * (m * opt) + (m - 1) * (3 * last);
    <= { MulMonotone(m - 1, 3 * last, opt); }
      3 * (m * opt) + (m - 1) * opt;
    ==
      (4 * m - 1) * opt;
    }
  }

  lemma MulMonotone(c: nat, x: nat, y: nat)
    requires x <= y
    ensures c * x <= c * y
  {
  }

  lemma {:induction false} LastJobOn(w: seq<nat>, a: seq<nat>, k: nat) returns (j: nat)
    requires |w| == |a| && Load(w, a, k) > 0
    ensures j < |a| && a[j] == k
    ensures Load(w, a, k) == Load(w[..j], a[..j], k) + w[j]
  {
    var n := |a| - 1;
    if a[n] == k {
      j := n;
    } else {
      j := LastJobOn(w[..n], a[..n], k);
      assert w[..n][..j] == w[..j] && a[..n][..j] == a[..j];
    }
  }

  lemma OtherPrefix(w: seq<nat>, b: seq<nat>, n: nat, m: nat, opt: nat)
    requires |w| == |b| && n <= |w|
    requires forall k :: 0 <= k < m ==> Load(w, b, k) <= opt
    ensures forall k :: 0 <= k < m ==> Load(w[..n], b[..n], k) <= opt
  {
    forall k: nat | k < m
      ensures Load(w[..n], b[..n], k) <= opt
    {
      LoadOfPrefix(w, b, n, k);
    }
  }

  /** The planner puts job `j` on a shard that was then least loaded. */
  lemma GreedyIsLeast(w: seq<nat>, m: nat, j: nat)
    requires m > 0 && j < |w|
    ensures var a, k := Greedy(w, m)[..j], Greedy(w, m)[j];
            && a == Greedy(w[..j], m)
            && forall i :: 0 <= i < m ==> Load(w[..j], a, k) <= Load(w[..j], a, i)
  {
    GreedyOfPrefix(w, j, m);
    GreedyOfPrefix(w, j + 1, m);
    assert w[..j + 1][..j] == w[..j];
    var loads := Loads(w[..j], Greedy(w[..j], m), m);
    assert Greedy(w, m)[j] == Greedy(w[..j + 1], m)[j] == Lightest(loads);
    assert forall i :: 0 <= i < m ==> loads[Lightest(loads)] <= loads[i];
  }

  lemma LoadStep(w: seq<nat>, a: seq<nat>, i: nat, k: nat)
    requires |w| == |a| && i < |a|
    ensures Load(w[..i + 1], a[..i + 1], k) == Load(w[..i], a[..i], k) + if a[i] == k then w[i] else 0
  {
    assert w[..i + 1][..i] == w[..i] && a[..i + 1][..i] == a[..i];
  }

  /** The running loads tell the planner which shard its assignment names next. */
  lemma GreedyFollowsLoads(w: seq<nat>, m: nat, i: nat, loads: seq<nat>)
    requires m > 0 && i < |w| && |loads| == m
    requires forall k :: 0 <= k < m ==> loads[k] == Load(w[..i], Greedy(w, m)[..i], k)
    ensures Greedy(w, m)[i] == Lightest(loads)
  {
    GreedyOfPrefix(w, i, m);
    GreedyOfPrefix(w, i + 1, m);
    assert w[..i + 1][..i] == w[..i];
    assert loads == Loads(w[..i], Greedy(w[..i], m), m);
    assert Greedy(w, m)[i] == Greedy(w[..i + 1], m)[i];
  }

  /** `load` is within Graham's factor 4/3 - 1/(3m) of `opt`. */
  ghost predicate Within(load: nat, opt: nat, m: nat) {
    3 * m * load <= (4 * m - 1) * opt
  }

  lemma WithinOfAtMost(load: nat, opt: nat, m: nat)
    requires load <= opt && m > 0
    ensures Within(load, opt, m)
  {
    MulMonotone(3 * m, load, opt);
    MulMonotone(opt, 3 * m, 4 * m - 1);
  }

  /** One greedy step at job `j`, against any assignment `b` of the same weights. */
  lemma StepWithinBound(w: seq<nat>, a: seq<nat>, least: nat, b: seq<nat>, m: nat, opt: nat)
    requires m > 0 && |w| > 0 && NonIncreasing(w)
    requires |b| == |w| && Assignment(b, m) && forall k :: 0 <= k < m ==> Load(w, b, k) <= opt
    requires |a| == |w| - 1 && Assignment(a, m)
    requires forall k :: 0 <= k < m ==> least <= Load(w[..|a|], a, k)
    ensures Within(least + w[|w| - 1], opt, m)
  {
    if 3 * w[|w| - 1] <= opt {
      LightStep(w, a, least, b, m, opt);
    } else {
      HeavyStep(w, a, least, b, m, opt);
      WithinOfAtMost(least + w[|w| - 1], opt, m);
    }
  }

  lemma LastStepWithinBound(w: seq<nat>, b: seq<nat>, m: nat, k: nat, opt: nat, j: nat)
    requires m > 0 && NonIncreasing(w) && |b| == |w| && Assignment(b, m) && j < |w| && Greedy(w, m)[j] == k
    requires forall i :: 0 <= i < m ==> Load(w, b, i) <= opt
    ensures Within(Load(w[..j], Greedy(w, m)[..j], k) + w[j], opt, m)
  {
    var a := Greedy(w, m);
    GreedyIsLeast(w, m, j);
    OtherPrefix(w, b, j + 1, m, opt);
    assert w[..j + 1][..j] == w[..j];
    StepWithinBound(w[..j + 1], a[..j], Load(w[..j], a[..j], k), b[..j + 1], m, opt);
  }

  lemma ShardWithinBound(w: seq<nat>, b: seq<nat>, m: nat, k: nat, opt: nat)
    requires m > 0 && NonIncreasing(w) && |b| == |w| && Assignment(b, m) && k < m
    requires forall i :: 0 <= i < m ==> Load(w, b, i) <= opt
    ensures Within(Load(w, Greedy(w, m), k), opt, m)
  {
    var a := Greedy(w, m);
    if Load(w, a, k) == 0 {
      WithinOfAtMost(0, opt, m);
    } else {
      var j := LastJobOn(w, a, k);
      LastStepWithinBound(w, b, m, k, opt, j);
    }
  }

  /** Graham's bound, for every shard count, every weighting and every other assignment:
      the planner's heaviest shard is at most 4/3 - 1/(3m) of the other's heaviest. */
  lemma GreedyWithinBound(w: seq<nat>, b: seq<nat>, m: nat)
    requires m > 0 && NonIncreasing(w)
    requires |b| == |w| && Assignment(b, m)
    ensures 3 * m * Heaviest(w, Greedy(w, m), m) <= (4 * m - 1) * Heaviest(w, b, m)
  {
    var k :| 0 <= k < m && Load(w, Greedy(w, m), k) == Heaviest(w, Greedy(w, m), m);
    ShardWithinBound(w, b, m, k, Heaviest(w, b, m));
  }

  /** No two shards ever differ by more than the largest weight dealt so far. */
  lemma {:induction false} LoadGap(w: seq<nat>, m: nat, top: nat, i: nat, j: nat)
    requires i < m && j < m && forall x :: 0 <= x < |w| ==> w[x] <= top
    ensures Load(w, Greedy(w, m), i) <= Load(w, Greedy(w, m), j) + top
  {
    if |w| > 0 {
      var n := |w| - 1;
      var a := Greedy(w[..n], m);
      var least := Lightest(Loads(w[..n], a, m));
      assert Greedy(w, m)[..n] == a && Greedy(w, m)[n] == least;
      LoadGap(w[..n], m, top, i, j);
      assert Loads(w[..n], a, m)[least] <= Loads(w[..n], a, m)[j];
    }
  }

  /** And so it is after every step of the loop. */
  lemma LoadGapThroughout(w: seq<nat>, m: nat, top: nat, n: nat, i: nat, j: nat)
    requires i < m && j < m && n <= |w| && forall x :: 0 <= x < n ==> w[x] <= top
    ensures Load(w[..n], Greedy(w, m)[..n], i) <= Load(w[..n], Greedy(w, m)[..n], j) + top
  {
    GreedyOfPrefix(w, n, m);
    LoadGap(w[..n], m, top, i, j);
  }
}
