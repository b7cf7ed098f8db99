/**
 The wait for stable readiness of the restarted daemons (`_wait_for_lab_readiness` in
 scripts/bootstrap-production-deploy.py). What each pass observes is input.
 */
module Readiness {
  import opened Basics

  /** One look at one daemon: the deadline had passed; it was not running or its readiness file did
      not validate; or a validated observation. */
  datatype Observation = Late | Down | Seen(pid: int, heartbeat: real, startedAt: string, now: real)

  /** One pass over the labels: whether the deadline had passed before it, what it observes of each
      label in order, and whether the generation lock is held after it. */
  datatype Pass = Pass(expired: bool, looks: seq<Observation>, lockHeld: bool)

  /** What the wait remembers of a daemon. */
  datatype Memory = Memory(pid: int, heartbeat: real, startedAt: string, since: real)

  datatype Mark = Healthy | Unhealthy | Break | Raise

  function Look(prior: Option<Memory>, o: Observation, stability: real): (Option<Memory>, Mark) {
    match o
    case Late => (prior, Raise)
    case Down => (prior, Break)
    case Seen(pid, heartbeat, startedAt, now) =>
      if prior.None? || prior.value.pid != pid then (Some(Memory(pid, heartbeat, startedAt, now)), Unhealthy)
      else if startedAt != prior.value.startedAt || heartbeat < prior.value.heartbeat then (prior, Raise)
      else if heartbeat == prior.value.heartbeat then (prior, Unhealthy)
      else
        (Some(prior.value.(heartbeat := heartbeat)),
         if now - prior.value.since < stability then Unhealthy else Healthy)
  }

  function Remembered(first: map<string, Memory>, name: string): Option<Memory> {
    if name in first then Some(first[name]) else None
  }

  function Remember(first: map<string, Memory>, name: string, m: Option<Memory>): map<string, Memory> {
    if m.Some? then first[name := m.value] else first
  }

  /** The end of a pass: raised, or what is remembered and whether every label was healthy. */
  datatype Passed = Raised | Through(first: map<string, Memory>, healthy: bool)

  function Scan(first: map<string, Memory>, labels: seq<string>, looks: seq<Observation>, k: nat, healthy: bool,
                stability: real): Passed
    requires k <= |labels| == |looks|
    decreases |labels| - k
  {
    if k == |labels| then Through(first, healthy)
    else
      var (m, mark) := Look(Remembered(first, labels[k]), looks[k], stability);
      match mark
      case Raise => Raised
      case Break => Through(first, false)
      case Unhealthy => Scan(Remember(first, labels[k], m), labels, looks, k + 1, false, stability)
      case Healthy => Scan(Remember(first, labels[k], m), labels, looks, k + 1, healthy, stability)
  }

  predicate Fits(passes: seq<Pass>, labels: seq<string>) {
    forall p :: 0 <= p < |passes| ==> |passes[p].looks| == |labels|
  }

  /** The pass after which the wait returns, if it does. */
  function ReadyAfter(first: map<string, Memory>, labels: seq<string>, passes: seq<Pass>,
                      stability: real): (n: Option<nat>)
    requires Fits(passes, labels)
    ensures n.Some? ==> n.value < |passes|
    decreases |passes|
  {
    if passes == [] || passes[0].expired then None
    else
      match Scan(first, labels, passes[0].looks, 0, true, stability)
      case Raised => None
      case Through(next, healthy) =>
        if healthy && |next| == |labels| && passes[0].lockHeld then Some(0)
        else
          var later := ReadyAfter(next, labels, passes[1..], stability);
          if later.Some? then Some(later.value + 1) else None
  }

  /** The loop over the labels of one pass. */
  method ScanLabels(first: map<string, Memory>, labels: seq<string>, looks: seq<Observation>, stability: real)
    returns (end: Passed)
    requires |labels| == |looks|
    ensures end == Scan(first, labels, looks, 0, true, stability)
  {
    var memory, healthy := first, true;
    for k := 0 to |labels|
      invariant Scan(memory, labels, looks, k, healthy, stability) == Scan(first, labels, looks, 0, true, stability)
    {
      var prior := Remembered(memory, labels[k]);
      match looks[k] {
        case Late => return Raised;
        case Down => return Through(memory, false);
        case Seen(pid, heartbeat, startedAt, now) =>
          if prior.None? || prior.value.pid != pid {
            memory := memory[labels[k] := Memory(pid, heartbeat, startedAt, now)];
            healthy := false;
          } else if startedAt != prior.value.startedAt || heartbeat < prior.value.heartbeat {
            return Raised;
          } else if heartbeat == prior.value.heartbeat {
            assert memory[labels[k] := prior.value] == memory;
            healthy := false;
          } else {
            memory := memory[labels[k] := prior.value.(heartbeat := heartbeat)];
            if now - prior.value.since < stability {
              healthy := false;
            }
          }
      }
    }
    end := Through(memory, healthy);
  }

  method WaitReady(labels: seq<string>, passes: seq<Pass>, stability: real) returns (ready: Option<nat>)
    requires Fits(passes, labels)
    ensures ready == ReadyAfter(map[], labels, passes, stability)
  {
    var first: map<string, Memory> := map[];
    var n := 0;
    while n < |passes| && !passes[n].expired
      invariant n <= |passes| && Fits(passes[n..], labels)
      invariant ReadyAfter(map[], labels, passes, stability) ==
                Later(n, ReadyAfter(first, labels, passes[n..], stability))
    {
      assert passes[n..][0] == passes[n] && passes[n..][1..] == passes[n + 1..];
      var end := ScanLabels(first, labels, passes[n].looks, stability);
      if end.Raised? {
        return None;
      }
      if end.healthy && |end.first| == |labels| && passes[n].lockHeld {
        return Some(n);
      }
      first := end.first;
      n := n + 1;
    }
    ready := None;
  }

  function Later(n: nat, m: Option<nat>): Option<nat> {
    if m.Some? then Some(n + m.value) else None
  }

  // ---- What readiness means ----

  /** Label `k` was validated in the pass: no look up to it failed. */
  predicate Validated(p: Pass, k: nat) {
    k < |p.looks| && forall j :: 0 <= j <= k ==> p.looks[j].Seen?
  }

  predicate Agrees(o: Observation, e: Memory) {
    o.Seen? && o.pid == e.pid && o.startedAt == e.startedAt && o.heartbeat <= e.heartbeat
  }

  ghost predicate Monotone(passes: seq<Pass>, k: nat, m: nat) {
    forall p, q :: m <= p < q < |passes| && Validated(passes[p], k) && Validated(passes[q], k) ==>
      passes[p].looks[k].heartbeat <= passes[q].looks[k].heartbeat
  }

  /** Since pass `m` every validated observation of label `k` agrees with what is remembered. */
  ghost predicate Since(passes: seq<Pass>, k: nat, m: nat, e: Memory) {
    && m < |passes| && Validated(passes[m], k) && passes[m].looks[k].now == e.since
    && (forall p :: m <= p < |passes| && Validated(passes[p], k) ==> Agrees(passes[p].looks[k], e))
    && Monotone(passes, k, m)
  }

  /** The last pass saw label `k` with the process and start time of every validated observation
      since pass `m`, at least `stability` seconds earlier; its heartbeat never went back in between
      and has now passed all the earlier ones. */
  ghost predicate StableSince(passes: seq<Pass>, k: nat, m: nat, stability: real) {
    && m + 1 < |passes| && Monotone(passes, k, m)
    && var last := passes[|passes| - 1];
    && Validated(last, k) && Validated(passes[m], k)
    && last.looks[k].now - passes[m].looks[k].now >= stability
    && forall p :: m <= p < |passes| - 1 && Validated(passes[p], k) ==>
         && passes[p].looks[k].pid == last.looks[k].pid && passes[p].looks[k].startedAt == last.looks[k].startedAt
         && passes[p].looks[k].heartbeat < last.looks[k].heartbeat
  }

  ghost predicate Stable(passes: seq<Pass>, k: nat, stability: real) {
    exists m :: StableSince(passes, k, m, stability)
  }

  ghost predicate AllStable(passes: seq<Pass>, count: nat, stability: real) {
    forall k :: 0 <= k < count ==> Stable(passes, k, stability)
  }

  ghost predicate Knows(first: map<string, Memory>, name: string, passes: seq<Pass>, k: nat) {
    name in first ==> exists m :: Since(passes, k, m, first[name])
  }

  lemma SinceUnseen(done: seq<Pass>, pass: Pass, k: nat, m: nat, e: Memory)
    requires Since(done, k, m, e) && !Validated(pass, k)
    ensures Since(done + [pass], k, m, e)
  {}

  lemma SinceSeen(done: seq<Pass>, pass: Pass, k: nat, m: nat, e: Memory)
    requires Since(done, k, m, e) && Validated(pass, k)
    requires pass.looks[k].pid == e.pid && pass.looks[k].startedAt == e.startedAt
    requires pass.looks[k].heartbeat >= e.heartbeat
    ensures Since(done + [pass], k, m, e.(heartbeat := pass.looks[k].heartbeat))
    ensures pass.looks[k].heartbeat > e.heartbeat ==> StableSince(done + [pass], k, m, pass.looks[k].now - e.since)
  {}

  lemma LookKeeps(done: seq<Pass>, pass: Pass, k: nat, prior: Option<Memory>, stability: real)
    requires Validated(pass, k) && (prior.Some? ==> exists m :: Since(done, k, m, prior.value))
    ensures var (e, mark) := Look(prior, pass.looks[k], stability);
            mark != Raise ==>
              && mark != Break && e.Some? && (exists m :: Since(done + [pass], k, m, e.value))
              && (mark == Healthy ==> Stable(done + [pass], k, stability))
  {
    var (e, mark) := Look(prior, pass.looks[k], stability);
    if mark != Raise {
      if prior.None? || prior.value.pid != pass.looks[k].pid {
        assert Since(done + [pass], k, |done|, e.value);
      } else {
        var m :| Since(done, k, m, prior.value);
        SinceSeen(done, pass, k, m, prior.value);
        assert Since(done + [pass], k, m, e.value);
        assert mark == Healthy ==> StableSince(done + [pass], k, m, stability);
      }
    }
  }

  /** The state of the loop over the labels of a pass. */
  ghost predicate Scanning(first: map<string, Memory>, labels: seq<string>, done: seq<Pass>, pass: Pass, k: nat,
                           healthy: bool, stability: real)
    requires k <= |labels| == |pass.looks|
  {
    && (forall j :: 0 <= j < k ==> pass.looks[j].Seen? && Knows(first, labels[j], done + [pass], j))
    && (forall j :: k <= j < |labels| ==> Knows(first, labels[j], done, j))
    && (healthy ==> forall j :: 0 <= j < k ==> Stable(done + [pass], j, stability))
  }

  lemma {:induction false} ScanKeeps(first: map<string, Memory>, labels: seq<string>, done: seq<Pass>, pass: Pass,
                                     k: nat, healthy: bool, stability: real)
    requires k <= |labels| == |pass.looks| && Distinct(labels)
    requires Scanning(first, labels, done, pass, k, healthy, stability)
    ensures var end := Scan(first, labels, pass.looks, k, healthy, stability);
            end.Through? ==>
              && (forall j :: 0 <= j < |labels| ==> Knows(end.first, labels[j], done + [pass], j))
              && (end.healthy ==> forall j :: 0 <= j < |labels| ==> Stable(done + [pass], j, stability))
    decreases |labels| - k
  {
    if k < |labels| {
      if pass.looks[k].Seen? {
        var prior := Remembered(first, labels[k]);
        var (e, mark) := Look(prior, pass.looks[k], stability);
        assert Knows(first, labels[k], done, k);
        LookKeeps(done, pass, k, prior, stability);
        if mark != Raise {
          ScanKeeps(Remember(first, labels[k], e), labels, done, pass, k + 1, healthy && mark == Healthy, stability);
        }
      } else {
        UnseenKeeps(first, labels, done, pass, k);
      }
    }
  }

  lemma UnseenKeeps(first: map<string, Memory>, labels: seq<string>, done: seq<Pass>, pass: Pass, k: nat)
    requires k < |labels| == |pass.looks| && !pass.looks[k].Seen?
    requires forall j :: k <= j < |labels| ==> Knows(first, labels[j], done, j)
    ensures forall j :: k <= j < |labels| ==> Knows(first, labels[j], done + [pass], j)
  {
    forall j: nat | k <= j < |labels| && labels[j] in first
      ensures exists m :: Since(done + [pass], j, m, first[labels[j]])
    {
      assert Knows(first, labels[j], done, j);
      var m :| Since(done, j, m, first[labels[j]]);
      SinceUnseen(done, pass, j, m, first[labels[j]]);
    }
  }

  /** The wait returns only when every daemon has been stable: one process, one start time and
      non-decreasing heartbeats over at least the stability period, each heartbeat advancing in the
      returning pass. */
  lemma {:induction false} ReadyIsStable(first: map<string, Memory>, labels: seq<string>, done: seq<Pass>,
                                         passes: seq<Pass>, stability: real)
    requires Distinct(labels) && Fits(passes, labels) && ReadyAfter(first, labels, passes, stability).Some?
    requires forall j :: 0 <= j < |labels| ==> Knows(first, labels[j], done, j)
    ensures var n := ReadyAfter(first, labels, passes, stability).value;
            passes[n].lockHeld && AllStable(done + passes[..n + 1], |labels|, stability)
    decreases |passes|
  {
    ScanKeeps(first, labels, done, passes[0], 0, true, stability);
    var end := Scan(first, labels, passes[0].looks, 0, true, stability);
    if end.healthy && |end.first| == |labels| && passes[0].lockHeld {
      assert done + passes[..1] == done + [passes[0]];
    } else {
      var n := ReadyAfter(end.first, labels, passes[1..], stability).value;
      ReadyIsStable(end.first, labels, done + [passes[0]], passes[1..], stability);
      assert done + [passes[0]] + passes[1..][..n + 1] == done + passes[..n + 2];
    }
  }

  // ---- Steady daemons are found ready ----

  ghost predicate SteadyLabel(passes: seq<Pass>, k: nat) {
    && (forall p :: 0 <= p < |passes| ==> k < |passes[p].looks| && passes[p].looks[k].Seen?)
    && (forall p, q :: 0 <= p < q < |passes| ==>
          && passes[p].looks[k].pid == passes[q].looks[k].pid
          && passes[p].looks[k].startedAt == passes[q].looks[k].startedAt
          && passes[p].looks[k].heartbeat < passes[q].looks[k].heartbeat)
  }

  /** Every pass is in time, holds the lock and sees every label, in one process, with a new heartbeat. */
  ghost predicate Steady(passes: seq<Pass>, labels: seq<string>) {
    && Fits(passes, labels)
    && (forall p :: 0 <= p < |passes| ==> !passes[p].expired && passes[p].lockHeld)
    && (forall k :: 0 <= k < |labels| ==> SteadyLabel(passes, k))
  }

  ghost function Expected(passes: seq<Pass>, p: nat, k: nat): Memory
    requires p < |passes| && SteadyLabel(passes, k)
  {
    Memory(passes[p].looks[k].pid, passes[p].looks[k].heartbeat, passes[p].looks[k].startedAt, passes[0].looks[k].now)
  }

  /** In pass `p`, before label `k`: labels before it are remembered from this pass, the others from
      the pass before. */
  ghost predicate Midway(first: map<string, Memory>, labels: seq<string>, passes: seq<Pass>, p: nat, k: nat)
    requires Steady(passes, labels) && p < |passes| && k <= |labels|
  {
    && first.Keys == (if p == 0 then SetOf(labels[..k]) else SetOf(labels))
    && (forall j :: 0 <= j < k ==> labels[j] in first && first[labels[j]] == Expected(passes, p, j))
    && (p > 0 ==>
          forall j :: k <= j < |labels| ==> labels[j] in first && first[labels[j]] == Expected(passes, p - 1, j))
  }

  ghost predicate OldEnough(passes: seq<Pass>, p: nat, k: nat, stability: real)
    requires p < |passes| && SteadyLabel(passes, k)
  {
    passes[p].looks[k].now - passes[0].looks[k].now >= stability
  }

  ghost predicate AllOldEnough(passes: seq<Pass>, p: nat, labels: seq<string>, stability: real)
    requires p < |passes| && Steady(passes, labels)
  {
    forall k :: 0 <= k < |labels| ==> OldEnough(passes, p, k, stability)
  }

  lemma SteadyLook(first: map<string, Memory>, labels: seq<string>, passes: seq<Pass>, p: nat, k: nat, stability: real)
    requires Distinct(labels) && Steady(passes, labels) && p < |passes| && k < |labels|
    requires Midway(first, labels, passes, p, k)
    ensures var (e, mark) := Look(Remembered(first, labels[k]), passes[p].looks[k], stability);
            && e == Some(Expected(passes, p, k)) && mark != Raise && mark != Break
            && (mark == Healthy <==> p > 0 && OldEnough(passes, p, k, stability))
            && Midway(Remember(first, labels[k], e), labels, passes, p, k + 1)
  {
    assert SteadyLabel(passes, k);
    var (e, mark) := Look(Remembered(first, labels[k]), passes[p].looks[k], stability);
    if p == 0 {
      assert labels[k] !in labels[..k];
    }
    assert SetOf(labels[..k + 1]) == SetOf(labels[..k]) + {labels[k]};
    assert labels[k] in SetOf(labels);
  }

  lemma {:induction false} SteadyScan(first: map<string, Memory>, labels: seq<string>, passes: seq<Pass>, p: nat,
                                      k: nat, healthy: bool, stability: real)
    requires Distinct(labels) && Steady(passes, labels) && p < |passes| && k <= |labels|
    requires Midway(first, labels, passes, p, k)
    ensures var end := Scan(first, labels, passes[p].looks, k, healthy, stability);
            && end.Through? && Midway(end.first, labels, passes, p, |labels|)
            && (healthy && p > 0 && (forall j :: k <= j < |labels| ==> OldEnough(passes, p, j, stability)) ==>
                  end.healthy)
    decreases |labels| - k
  {
    if k < |labels| {
      SteadyLook(first, labels, passes, p, k, stability);
      var (e, mark) := Look(Remembered(first, labels[k]), passes[p].looks[k], stability);
      SteadyScan(Remember(first, labels[k], e), labels, passes, p, k + 1, healthy && mark == Healthy, stability);
    }
  }

  lemma SteadyPass(first: map<string, Memory>, labels: seq<string>, passes: seq<Pass>, p: nat, stability: real)
    requires Distinct(labels) && Steady(passes, labels) && p < |passes| && Midway(first, labels, passes, p, 0)
    ensures var end := Scan(first, labels, passes[p].looks, 0, true, stability);
            && end.Through? && |end.first| == |labels|
            && (p + 1 < |passes| ==> Midway(end.first, labels, passes, p + 1, 0))
            && (p > 0 && AllOldEnough(passes, p, labels, stability) ==> end.healthy)
  {
    SteadyScan(first, labels, passes, p, 0, true, stability);
    var end := Scan(first, labels, passes[p].looks, 0, true, stability);
    assert labels[..|labels|] == labels;
    DistinctSize(labels);
    assert |end.first| == |end.first.Keys|;
  }

  lemma {:induction false} SteadyFrom(first: map<string, Memory>, labels: seq<string>, passes: seq<Pass>, p: nat,
                                      stability: real)
    requires Distinct(labels) && Steady(passes, labels) && p < |passes| && |passes| > 1
    requires Midway(first, labels, passes, p, 0)
    requires AllOldEnough(passes, |passes| - 1, labels, stability)
    ensures Fits(passes[p..], labels) && ReadyAfter(first, labels, passes[p..], stability).Some?
    decreases |passes| - p
  {
    SteadyPass(first, labels, passes, p, stability);
    var end := Scan(first, labels, passes[p].looks, 0, true, stability);
    assert passes[p..][0] == passes[p] && passes[p..][1..] == passes[p + 1..];
    if p + 1 < |passes| {
      SteadyFrom(end.first, labels, passes, p + 1, stability);
    }
  }

  /** Daemons that keep their process and renew their heartbeat in every pass are found ready, at the
      latest in the pass that completes the stability period. */
  lemma SteadyBecomesReady(labels: seq<string>, passes: seq<Pass>, stability: real)
    requires Distinct(labels) && Steady(passes, labels) && |passes| > 1
    requires AllOldEnough(passes, |passes| - 1, labels, stability)
    ensures ReadyAfter(map[], labels, passes, stability).Some?
  {
    assert SetOf(labels[..0]) == {};
    SteadyFrom(map[], labels, passes, 0, stability);
    assert passes[0..] == passes;
  }
}
