/**
 Dealing grouped cases to shards: cases are grouped by a file function, files are
 ordered heaviest first and put on the least loaded shard. The file function and the
 table of historical weights are parameters.
 */
module FileDeal {
  import opened Basics
  import opened Sorting
  import LptBound

  /** The cases of one collection, the file of each case, and the recorded file weights. */
  datatype Suite = Suite(cases: seq<string>, path: string -> string, recorded: map<string, nat>) {

    function Prefix(n: nat): (s: Suite)
      requires n <= |cases|
    {
      Suite(cases[..n], path, recorded)
    }

    /** The cases of file `f`, in order. */
    function CasesOf(f: string): (r: seq<string>)
      decreases |cases|
    {
      if |cases| == 0 then []
      else
        var n := |cases| - 1;
        Prefix(n).CasesOf(f) + if path(cases[n]) == f then [cases[n]] else []
    }

    /** The files, in the order of their first case. */
    function Files(): (r: seq<string>)
      ensures Distinct(r)
      decreases |cases|
    {
      if |cases| == 0 then []
      else
        var n := |cases| - 1;
        var r := Prefix(n).Files();
        if path(cases[n]) in r then r else r + [path(cases[n])]
    }

    function Weight(f: string): nat {
      Max(|CasesOf(f)|, if f in recorded then recorded[f] else 0)
    }

    /** The planner's sort key `(-weight, path)`, as an order on paths. */
    predicate HeavierFirst(p: string, q: string) {
      Weight(p) > Weight(q) || (Weight(p) == Weight(q) && LexLe(p, q))
    }

    function Order(): (string, string) -> bool {
      (p, q) => HeavierFirst(p, q)
    }

    /** The files in the order they are dealt. */
    function Dealt(): seq<string> {
      Sort(Files(), Order())
    }

    function Weights(files: seq<string>): (w: seq<nat>)
      ensures |w| == |files|
      ensures forall i :: 0 <= i < |files| ==> w[i] == Weight(files[i])
    {
      seq(|files|, i requires 0 <= i < |files| => Weight(files[i]))
    }

    /** The shard of every dealt file. */
    function Shards(m: nat): (a: seq<nat>)
      requires m > 0
      ensures |a| == |Dealt()| && LptBound.Assignment(a, m)
    {
      LptBound.Greedy(Weights(Dealt()), m)
    }

    /** The cases that assignment `a` of `files` puts on shard `k`. */
    function Gather(files: seq<string>, a: seq<nat>, k: nat): seq<string>
      requires |files| == |a|
      decreases |files|
    {
      if |files| == 0 then []
      else
        var n := |files| - 1;
        Gather(files[..n], a[..n], k) + if a[n] == k then CasesOf(files[n]) else []
    }

    /** File `f` is dealt to shard `k`. */
    ghost predicate OnShard(m: nat, f: string, k: nat)
      requires m > 0
    {
      exists i :: 0 <= i < |Dealt()| && Dealt()[i] == f && Shards(m)[i] == k
    }

    lemma {:induction false} CasesCount(f: string, x: string)
      ensures multiset(CasesOf(f))[x] == if path(x) == f then multiset(cases)[x] else 0
      decreases |cases|
    {
      if |cases| > 0 {
        var n := |cases| - 1;
        Prefix(n).CasesCount(f, x);
        assert cases == cases[..n] + [cases[n]];
        var last := if path(cases[n]) == f then [cases[n]] else [];
        assert CasesOf(f) == Prefix(n).CasesOf(f) + last;
        assert multiset(CasesOf(f)) == multiset(Prefix(n).CasesOf(f)) + multiset(last);
      }
    }

    lemma {:induction false} FilesMembers(f: string)
      ensures f in Files() <==> exists x :: x in cases && path(x) == f
      decreases |cases|
    {
      if |cases| > 0 {
        var n := |cases| - 1;
        Prefix(n).FilesMembers(f);
        assert cases == cases[..n] + [cases[n]];
      }
    }

    lemma {:induction false} NoCases(f: string)
      requires f !in Files()
      ensures CasesOf(f) == []
      decreases |cases|
    {
      if |cases| > 0 {
        Prefix(|cases| - 1).NoCases(f);
      }
    }

    lemma OrderTotal()
      ensures TotalOrder(Order())
    {
      LexIsTotalOrder();
    }

    lemma DealtMembers(f: string)
      ensures f in Dealt() <==> exists x :: x in cases && path(x) == f
    {
      FilesMembers(f);
      SortMembers(Files(), Order());
    }

    lemma DealtDistinct()
      ensures Distinct(Dealt())
    {
      SortDistinct(Files(), Order());
    }

    lemma DealtInOrder(i: nat, j: nat)
      requires i < j < |Dealt()|
      ensures Weight(Dealt()[j]) <= Weight(Dealt()[i])
    {
      OrderTotal();
      SortSorted(Files(), Order());
      assert Order()(Dealt()[i], Dealt()[j]);
    }

    lemma WeightsInOrder(files: seq<string>)
      requires forall i, j :: 0 <= i < j < |files| ==> Weight(files[j]) <= Weight(files[i])
      ensures LptBound.NonIncreasing(Weights(files))
    {}

    lemma DealtHeaviestFirst()
      ensures LptBound.NonIncreasing(Weights(Dealt()))
    {
      forall i, j | 0 <= i < j < |Dealt()|
        ensures Weight(Dealt()[j]) <= Weight(Dealt()[i])
      {
        DealtInOrder(i, j);
      }
      WeightsInOrder(Dealt());
    }

    lemma GatherLast(files: seq<string>, a: seq<nat>, k: nat, x: string)
      requires |files| == |a| > 0
      ensures var n := |files| - 1;
              multiset(Gather(files, a, k))[x] == multiset(Gather(files[..n], a[..n], k))[x]
              + if a[n] == k && files[n] == path(x) then multiset(cases)[x] else 0
    {
      CasesCount(files[|files| - 1], x);
    }

    lemma {:induction false} GatherNone(files: seq<string>, a: seq<nat>, k: nat, x: string)
      requires |files| == |a| && path(x) !in files
      ensures multiset(Gather(files, a, k))[x] == 0
      decreases |files|
    {
      if |files| > 0 {
        GatherNone(files[..|files| - 1], a[..|files| - 1], k, x);
        GatherLast(files, a, k, x);
      }
    }

    lemma {:induction false} GatherCounts(files: seq<string>, a: seq<nat>, k: nat, x: string, i: nat)
      requires |files| == |a| && Distinct(files) && i < |files| && files[i] == path(x)
      ensures multiset(Gather(files, a, k))[x] == if a[i] == k then multiset(cases)[x] else 0
      decreases |files|
    {
      var n := |files| - 1;
      GatherLast(files, a, k, x);
      if i == n {
        assert path(x) !in files[..n];
        GatherNone(files[..n], a[..n], k, x);
      } else {
        GatherCounts(files[..n], a[..n], k, x, i);
      }
    }

    /** A case goes, with all its copies, to the one shard of its file. */
    lemma CasePlaced(m: nat, x: string) returns (k: nat)
      requires m > 0 && x in cases
      ensures k < m && OnShard(m, path(x), k)
      ensures forall l :: OnShard(m, path(x), l) ==> l == k
      ensures forall l :: 0 <= l < m ==>
                multiset(Gather(Dealt(), Shards(m), l))[x] == if l == k then multiset(cases)[x] else 0
    {
      DealtMembers(path(x));
      DealtDistinct();
      var i :| 0 <= i < |Dealt()| && Dealt()[i] == path(x);
      k := Shards(m)[i];
      forall l: nat | l < m
        ensures multiset(Gather(Dealt(), Shards(m), l))[x] == if l == k then multiset(cases)[x] else 0
      {
        GatherCounts(Dealt(), Shards(m), l, x, i);
      }
    }

    lemma NothingInvented(m: nat, k: nat, x: string)
      requires m > 0 && x in Gather(Dealt(), Shards(m), k)
      ensures x in cases
    {
      assert x in multiset(Gather(Dealt(), Shards(m), k));
      DealtDistinct();
      if path(x) !in Dealt() {
        GatherNone(Dealt(), Shards(m), k, x);
      } else {
        var i :| 0 <= i < |Dealt()| && Dealt()[i] == path(x);
        GatherCounts(Dealt(), Shards(m), k, x, i);
        assert x in multiset(cases);
      }
    }

    /** A rival sends whole files to shards. */
    ghost predicate Rival(rival: map<string, nat>, m: nat) {
      && (forall f :: f in Dealt() ==> f in rival)
      && (forall f :: f in rival ==> rival[f] < m)
    }

    ghost function RivalShards(rival: map<string, nat>, m: nat): (b: seq<nat>)
      requires Rival(rival, m)
      ensures |b| == |Dealt()| && LptBound.Assignment(b, m)
      ensures forall i :: 0 <= i < |b| ==> b[i] == rival[Dealt()[i]]
    {
      seq(|Dealt()|, i requires 0 <= i < |Dealt()| => rival[Dealt()[i]])
    }

    /** The weight of all the files the rival sends to shard `k`. */
    ghost function RivalLoad(rival: map<string, nat>, m: nat, k: nat): nat
      requires Rival(rival, m)
    {
      LptBound.Load(Weights(Dealt()), RivalShards(rival, m), k)
    }

    /** The weight of all the files dealt to shard `k`. */
    function DealtLoad(m: nat, k: nat): nat
      requires m > 0
    {
      LptBound.Load(Weights(Dealt()), Shards(m), k)
    }

    lemma WithinFourThirds(m: nat, rival: map<string, nat>, opt: nat, k: nat)
      requires k < m && Rival(rival, m)
      requires forall i :: 0 <= i < m ==> RivalLoad(rival, m, i) <= opt
      ensures LptBound.Within(DealtLoad(m, k), opt, m)
    {
      DealtHeaviestFirst();
      var w, b := Weights(Dealt()), RivalShards(rival, m);
      forall i | 0 <= i < m
        ensures LptBound.Load(w, b, i) <= opt
      {
        assert RivalLoad(rival, m, i) <= opt;
      }
      LptBound.ShardWithinBound(w, b, m, k, opt);
    }

    // ---- One iteration of the planner's two loops ----

    lemma PrefixStep(i: nat)
      requires i < |cases|
      ensures var f := path(cases[i]);
              && (f in Prefix(i).Files() ==> Prefix(i + 1).Files() == Prefix(i).Files())
              && (f !in Prefix(i).Files() ==>
                    Prefix(i + 1).Files() == Prefix(i).Files() + [f] && Prefix(i).CasesOf(f) == [])
              && Prefix(i + 1).CasesOf(f) == Prefix(i).CasesOf(f) + [cases[i]]
              && forall g :: g != f ==> Prefix(i + 1).CasesOf(g) == Prefix(i).CasesOf(g)
    {
      assert cases[..i + 1][..i] == cases[..i];
      assert Prefix(i + 1).Prefix(i) == Prefix(i);
      if path(cases[i]) !in Prefix(i).Files() {
        Prefix(i).NoCases(path(cases[i]));
      }
    }

    /** The first `i` cases, grouped. */
    ghost predicate Grouped(i: nat, order: seq<string>, files: map<string, seq<string>>)
      requires i <= |cases|
    {
      && order == Prefix(i).Files() && files.Keys == SetOf(order)
      && forall f :: f in files ==> files[f] == Prefix(i).CasesOf(f)
    }

    lemma GroupStep(i: nat, order: seq<string>, files: map<string, seq<string>>)
      requires i < |cases| && Grouped(i, order, files)
      ensures var f := path(cases[i]);
              if f in files then Grouped(i + 1, order, files[f := files[f] + [cases[i]]])
              else Grouped(i + 1, order + [f], files[f := [cases[i]]])
    {
      PrefixStep(i);
      var f := path(cases[i]);
      assert SetOf(order + [f]) == SetOf(order) + {f};
    }

    lemma GroupedAll(order: seq<string>, files: map<string, seq<string>>)
      requires Grouped(|cases|, order, files)
      ensures order == Files() && files.Keys == SetOf(Files()) && forall f :: f in files ==> files[f] == CasesOf(f)
    {
      assert cases[..|cases|] == cases;
      assert Prefix(|cases|) == this;
    }

    lemma GatherStep(files: seq<string>, a: seq<nat>, i: nat, k: nat)
      requires |files| == |a| && i < |a|
      ensures Gather(files[..i + 1], a[..i + 1], k)
           == Gather(files[..i], a[..i], k) + if a[i] == k then CasesOf(files[i]) else []
    {
      assert files[..i + 1][..i] == files[..i] && a[..i + 1][..i] == a[..i];
    }
  }

  /** The state of the greedy loop after `i` files. */
  ghost predicate DealtTo(suite: Suite, m: nat, i: nat, loads: seq<nat>, shards: seq<seq<string>>)
    requires m > 0 && i <= |suite.Dealt()|
  {
    var files, a := suite.Dealt(), suite.Shards(m);
    && |loads| == |shards| == m
    && (forall k :: 0 <= k < m ==> loads[k] == LptBound.Load(suite.Weights(files)[..i], a[..i], k))
    && (forall k :: 0 <= k < m ==> shards[k] == suite.Gather(files[..i], a[..i], k))
  }

  lemma DealStep(suite: Suite, m: nat, i: nat, loads: seq<nat>, shards: seq<seq<string>>)
    requires m > 0 && i < |suite.Dealt()| && DealtTo(suite, m, i, loads, shards)
    ensures var k, f := LptBound.Lightest(loads), suite.Dealt()[i];
            DealtTo(suite, m, i + 1, loads[k := loads[k] + suite.Weight(f)], shards[k := shards[k] + suite.CasesOf(f)])
  {
    var files, a := suite.Dealt(), suite.Shards(m);
    LptBound.GreedyFollowsLoads(suite.Weights(files), m, i, loads);
    forall l | 0 <= l < m
      ensures LptBound.Load(suite.Weights(files)[..i + 1], a[..i + 1], l)
           == loads[l] + if l == a[i] then suite.Weight(files[i]) else 0
    {
      LptBound.LoadStep(suite.Weights(files), a, i, l);
    }
    forall l | 0 <= l < m
      ensures suite.Gather(files[..i + 1], a[..i + 1], l)
           == shards[l] + if l == a[i] then suite.CasesOf(files[i]) else []
    {
      suite.GatherStep(files, a, i, l);
    }
  }

  lemma DealStart(suite: Suite, m: nat)
    requires m > 0
    ensures DealtTo(suite, m, 0, seq(m, _ => 0), seq(m, _ => []))
  {}

  lemma DealEnd(suite: Suite, m: nat, loads: seq<nat>, shards: seq<seq<string>>)
    requires m > 0 && DealtTo(suite, m, |suite.Dealt()|, loads, shards)
    ensures |shards| == m && forall k :: 0 <= k < m ==> shards[k] == suite.Gather(suite.Dealt(), suite.Shards(m), k)
  {
    var files, a := suite.Dealt(), suite.Shards(m);
    assert a[..|a|] == a && files[..|files|] == files;
  }

  /** Group sorted cases by file, as the insertion-ordered dictionary does. */
  method GroupByFile(suite: Suite, valid: string -> bool)
    returns (r: Option<(seq<string>, map<string, seq<string>>)>)
    ensures r.Some? <==> forall x :: x in suite.cases ==> valid(x)
    ensures r.Some? ==>
              && r.value.0 == suite.Files()
              && r.value.1.Keys == SetOf(suite.Files())
              && forall f :: f in r.value.1 ==> r.value.1[f] == suite.CasesOf(f)
  {
    var cases := suite.cases;
    var files: map<string, seq<string>> := map[];
    var order: seq<string> := [];
    for i := 0 to |cases|
      invariant forall j :: 0 <= j < i ==> valid(cases[j])
      invariant suite.Grouped(i, order, files)
    {
      if !valid(cases[i]) {
        return None;
      }
      var f := suite.path(cases[i]);
      suite.GroupStep(i, order, files);
      if f !in files {
        order := order + [f];
        files := files[f := []];
      }
      files := files[f := files[f] + [cases[i]]];
    }
    suite.GroupedAll(order, files);
    r := Some((order, files));
  }

  /** The greedy loop over the dealt files. */
  method DealToShards(ghost suite: Suite, weighted: seq<string>, weights: seq<nat>, files: map<string, seq<string>>,
                      m: nat)
    returns (shards: seq<seq<string>>)
    requires m > 0 && weighted == suite.Dealt() && weights == suite.Weights(weighted)
    requires forall f :: f in weighted ==> f in files && files[f] == suite.CasesOf(f)
    ensures |shards| == m
    ensures forall k :: 0 <= k < m ==> shards[k] == suite.Gather(weighted, suite.Shards(m), k)
  {
    var loads := seq(m, _ => 0);
    shards := seq(m, _ => []);
    DealStart(suite, m);
    for i := 0 to |weighted|
      invariant DealtTo(suite, m, i, loads, shards)
    {
      var k := LptBound.Lightest(loads);
      DealStep(suite, m, i, loads, shards);
      shards := shards[k := shards[k] + files[weighted[i]]];
      loads := loads[k := loads[k] + weights[i]];
    }
    DealEnd(suite, m, loads, shards);
  }
}
