/**
 The host of the L2 component deployer (scripts/deploy-l2-component.py): capacity policy, desired
 symbols, the running API and collector, and the durable intent. The API edits the desired symbols
 on its own while it runs; commands and writes may fail with or without their effect, and the
 process may die at any of them. Times are microseconds.
 */
module ComponentHost {
  import opened Basics

  type Target = string

  datatype Policy = Policy(maxSymbols: nat, tree: string, acceptanceSha: string)

  datatype Desired = Desired(revision: nat, symbols: seq<string>)

  datatype Phase = Prepared | Activating | Blocked | Complete

  datatype Intent = Intent(phase: Phase, lastStart: Option<int>)

  datatype Installed = Installed(current: Target, previous: Option<Target>)

  const COOLDOWN := 60_000_000

  /** The release a recorded installation runs. */
  function CurrentOf(installed: Option<Installed>): Option<Target> {
    if installed.Some? then Some(installed.value.current) else None
  }

  /** A recorded installation is the one that policy file and current link belong to. */
  predicate Matches(installed: Option<Installed>, capacity: Option<Policy>, current: Option<Target>,
                    policies: map<Target, Policy>)
  {
    && current == CurrentOf(installed)
    && (installed.Some? ==>
          installed.value.current in policies && capacity == Some(policies[installed.value.current]))
  }

  /** Everything the deployer writes or commands; the desired symbols and the clock move without it. */
  datatype Snapshot = Snapshot(capacity: Option<Policy>, current: Option<Target>, policies: map<Target, Policy>,
                               apiRunning: bool, collectorRunning: bool,
                               intent: Option<Intent>, installed: Option<Installed>,
                               recorded: seq<int>, commanded: seq<int>)
  {
    /** The state in which no invocation gets past its preflight. */
    predicate Halted() {
      (intent.Some? && intent.value.phase != Complete) || !Matches(installed, capacity, current, policies)
    }
  }

  /** How a step ended: done, raised an error, or the process died. */
  datatype Status = Done | Raised | Crashed {
    predicate IsFailure() { !Done? }

    function PropagateFailure(): Status
      requires IsFailure()
    {
      this
    }
  }

  class Host {
    var capacity: Option<Policy>            // capacity.json
    var desired: Desired                    // control/desired.json
    var current: Option<Target>             // the link to the current release
    var apiRunning: bool
    var apiLimit: nat                       // the limit the running API read when it started
    var collectorRunning: bool
    var intent: Option<Intent>
    var installed: Option<Installed>
    var policies: map<Target, Policy>       // capacity policies of the staged releases
    var clock: int
    ghost var recorded: seq<int>            // collector starts made durable, oldest first
    ghost var commanded: seq<int>           // collector starts issued, by the time recorded for them

    // ---- What every reachable state satisfies ----

    /** The desired symbols fit the installed policy, which is the one the API runs with. */
    ghost predicate CapacityOk()
      reads this
    {
      && (capacity.Some? ==> |desired.symbols| <= capacity.value.maxSymbols)
      && (apiRunning ==> capacity.Some? && apiLimit == capacity.value.maxSymbols)
    }

    /** Recorded starts are a minute apart, the latest is what a finished intent remembers, and
        nothing was started that had not been recorded. */
    ghost predicate StartsOk()
      reads this
    {
      && (forall i, j :: 0 <= i < j < |recorded| ==> recorded[j] - recorded[i] >= COOLDOWN)
      && (forall t :: t in commanded ==> t in recorded)
      && Distinct(commanded)
      && (|recorded| > 0 ==> recorded[|recorded| - 1] <= clock && intent.Some?)
      && (intent.Some? ==> intent.value.lastStart == LastRecorded())
    }

    ghost function LastRecorded(): Option<int>
      reads this
    {
      if |recorded| == 0 then None else Some(recorded[|recorded| - 1])
    }

    /** A recorded installation names staged releases and has symbols to serve. */
    ghost predicate InstalledOk()
      reads this
    {
      installed.Some? ==>
        && desired.symbols != [] && installed.value.current in policies
        && (installed.value.previous.Some? ==>
              installed.value.previous.value in policies && installed.value.previous.value != installed.value.current)
    }

    ghost predicate Valid()
      reads this
    {
      CapacityOk() && StartsOk() && InstalledOk()
    }

    predicate InStep()
      reads this
    {
      Matches(installed, capacity, current, policies)
    }

    function Target(): Option<Target>
      reads this
    {
      CurrentOf(installed)
    }

    ghost function State(): Snapshot
      reads this
    {
      Snapshot(capacity, current, policies, apiRunning, collectorRunning, intent, installed, recorded, commanded)
    }

    /** An intent may be saved when it remembers the latest recorded start, or a new start a minute
        after it. */
    ghost predicate Recordable(i: Intent)
      reads this
    {
      || i.lastStart == LastRecorded()
      || (&& i.lastStart.Some? && i.lastStart.value <= clock
          && (LastRecorded().Some? ==> i.lastStart.value - LastRecorded().value >= COOLDOWN))
    }

    /** No symbol is lost and the revision does not go back. */
    twostate predicate Grown()
      reads this
    {
      old(desired.symbols) <= desired.symbols && old(desired.revision) <= desired.revision
    }

    constructor ()
      ensures Valid() && InStep() && capacity.None? && desired == Desired(0, []) && !apiRunning && !collectorRunning
      ensures intent.None? && installed.None?
      ensures recorded == [] && commanded == []
    {
      capacity, desired, current := None, Desired(0, []), None;
      apiRunning, apiLimit, collectorRunning := false, 0, false;
      intent, installed, policies, clock := None, None, map[], 0;
      recorded, commanded := [], [];
    }

    // ---- The API's own activity ----

    /** Between any two steps the running API may add symbols within the limit it started with. */
    method ApiActivity()
      requires Valid()
      modifies this`desired
      ensures Valid() && Grown()
      ensures !apiRunning ==> desired == old(desired)
    {
      var added: seq<string> := *;
      if apiRunning && |desired.symbols| + |added| <= apiLimit && |added| > 0 {
        desired := Desired(desired.revision + 1, desired.symbols + added);
      }
    }

    // ---- Commands and writes ----

    method Effect() returns (landed: bool, s: Status)
      ensures s == Done ==> landed
    {
      landed, s := *, *;
      if !landed && s == Done { s := Raised; }
    }

    method Now() returns (t: int)
      requires Valid()
      modifies this`clock
      ensures Valid() && t == clock && old(clock) <= clock
    {
      var passed: int := *;
      if passed > 0 { clock := clock + passed; }
      t := clock;
    }

    method Check() returns (s: Status)
      requires Valid()
      modifies this`desired
      ensures Valid() && Grown()
      ensures !apiRunning ==> desired == old(desired)
    {
      ApiActivity();
      s := *;
    }

    /** The unit inspection; before a first install no unit may be there or run. */
    method Inspect(expected: Option<Target>) returns (s: Status)
      requires Valid()
      modifies this`desired
      ensures Valid() && Grown()
      ensures !apiRunning ==> desired == old(desired)
      ensures s == Done && expected.None? ==> !apiRunning && !collectorRunning
    {
      ApiActivity();
      s := *;
      if expected.None? && (apiRunning || collectorRunning) && s == Done { s := Raised; }
    }

    method StopApi() returns (s: Status)
      requires Valid()
      modifies this`desired, this`apiRunning
      ensures Valid() && Grown()
      ensures !old(apiRunning) ==> !apiRunning && desired == old(desired)
      ensures s == Done ==> !apiRunning
    {
      ApiActivity();
      var landed;
      landed, s := Effect();
      if landed { apiRunning := false; }
    }

    /** Start or restart the API, which reads its limit from the policy file. */
    method StartApi() returns (s: Status)
      requires Valid() && capacity.Some?
      modifies this`desired, this`apiRunning, this`apiLimit
      ensures Valid() && Grown()
      ensures s == Done ==> apiRunning
    {
      var stopped := StopApi();
      var landed;
      landed, s := Effect();
      if landed {
        apiRunning, apiLimit := true, capacity.value.maxSymbols;
      }
    }

    method StopCollector() returns (s: Status)
      requires Valid()
      modifies this`desired, this`collectorRunning
      ensures Valid() && Grown()
      ensures !apiRunning ==> desired == old(desired)
      ensures s == Done || !old(collectorRunning) ==> !collectorRunning
    {
      ApiActivity();
      var landed;
      landed, s := Effect();
      if landed { collectorRunning := false; }
    }

    /** The preflight that wants the collector stopped. */
    method CheckStopped() returns (s: Status)
      requires Valid()
      modifies this`desired
      ensures Valid() && Grown()
      ensures !apiRunning ==> desired == old(desired)
      ensures s == Done ==> !collectorRunning
    {
      ApiActivity();
      s := *;
      if collectorRunning && s == Done { s := Raised; }
    }

    method ChangeCurrent(target: Target) returns (s: Status)
      requires Valid()
      modifies this`current
      ensures Valid()
      ensures current == old(current) || current == Some(target)
      ensures s == Done ==> current == Some(target)
    {
      var landed;
      landed, s := Effect();
      if landed { current := Some(target); }
    }

    method RemoveCurrent() returns (s: Status)
      requires Valid()
      modifies this`current
      ensures Valid()
      ensures current == old(current) || current.None?
      ensures s == Done ==> current.None?
    {
      var landed;
      landed, s := Effect();
      if landed { current := None; }
    }

    /** Start the collector: only ever behind a durable record of this very start. */
    method StartCollector(at: int) returns (s: Status)
      requires Valid() && intent.Some? && intent.value.lastStart == Some(at) && at !in commanded
      modifies this`desired, this`commanded, this`collectorRunning
      ensures Valid() && Grown()
      ensures commanded == old(commanded) + [at]
      ensures s == Done ==> collectorRunning
    {
      ApiActivity();
      assert at == recorded[|recorded| - 1];
      commanded := commanded + [at];
      var landed;
      landed, s := Effect();
      if landed { collectorRunning := true; }
    }

    /** Save an intent that remembers the last recorded start, or records a new one. */
    method SaveIntent(i: Intent) returns (s: Status)
      requires Valid() && Recordable(i)
      modifies this`intent, this`recorded
      ensures Valid()
      ensures intent == old(intent) || intent == Some(i)
      ensures s == Done ==> intent == Some(i)
      ensures recorded == old(recorded) || (i.lastStart.Some? && recorded == old(recorded) + [i.lastStart.value])
      ensures intent == old(intent) || old(LastRecorded()) == i.lastStart ==> recorded == old(recorded)
    {
      var landed;
      landed, s := Effect();
      if landed && intent != Some(i) {
        if i.lastStart != LastRecorded() {
          recorded := recorded + [i.lastStart.value];
        }
        intent := Some(i);
      }
    }

    /** Rewrite the capacity policy: only while the API is stopped, and only for symbols that fit. */
    method SaveCapacity(p: Policy) returns (s: Status)
      requires Valid() && !apiRunning && |desired.symbols| <= p.maxSymbols
      modifies this`capacity
      ensures Valid()
      ensures capacity == old(capacity) || capacity == Some(p)
      ensures s == Done ==> capacity == Some(p)
    {
      var landed;
      landed, s := Effect();
      if landed { capacity := Some(p); }
    }

    method SaveDesired(d: Desired) returns (s: Status)
      requires Valid() && !apiRunning && capacity.Some? && |d.symbols| <= capacity.value.maxSymbols
      requires desired.symbols <= d.symbols && desired.revision <= d.revision
      modifies this`desired
      ensures Valid() && Grown()
      ensures desired == old(desired) || desired == d
      ensures s == Done ==> desired == d
    {
      var landed;
      landed, s := Effect();
      if landed { desired := d; }
    }

    method SaveInstalled(i: Installed) returns (s: Status)
      requires Valid() && desired.symbols != [] && i.current in policies
      requires i.previous.Some? ==> i.previous.value in policies && i.previous.value != i.current
      modifies this`installed
      ensures Valid()
      ensures installed == old(installed) || installed == Some(i)
      ensures s == Done ==> installed == Some(i)
    {
      var landed;
      landed, s := Effect();
      if landed { installed := Some(i); }
    }

    method StageRelease(target: Target, p: Policy) returns (s: Status)
      requires Valid()
      modifies this`policies, this`desired
      ensures Valid() && Grown()
      ensures policies == old(policies) || (target !in old(policies) && policies == old(policies)[target := p])
      ensures s == Done ==> target in policies && policies[target] == p
    {
      ApiActivity();
      if target in policies {
        return Raised;
      }
      var landed;
      landed, s := Effect();
      if landed { policies := policies[target := p]; }
    }
  }
}
