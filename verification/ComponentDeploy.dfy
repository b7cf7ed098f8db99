/**
 The L2 component deployment (scripts/deploy-l2-component.py): capacity policy and desired
 symbols across upgrades, rollbacks and failures, and the discipline around collector starts.
 */
module ComponentDeploy {
  import opened Basics
  import opened ComponentHost

  datatype Refusal =
    | IncompleteIntent | OutOfStep | RollbackNotRecorded | AlreadyCurrent
    | CapacityConflict | RestartWindow | Cooldown | Preflight

  datatype Outcome =
    | Deployed | RolledBack
    | Refused(why: Refusal)
    | Failed                 // the handler got through
    | RollbackIncomplete     // the handler failed, or found the symbols beyond the old policy
    | Died                   // the process ended outside the handler

  /** What the `try` block has attempted so far, as the handler sees it. */
  datatype Flags = Flags(touched: bool, switched: bool, collectorStarted: bool, oldStop: bool, apiStop: bool)

  /** 09:15 up to 15:10 on a weekday, at UTC+8. Microsecond 0 is a Thursday. */
  predicate InRestartWindow(at: int) {
    var minutes := at / 60_000_000 + 480;
    (minutes / 1440 + 3) % 7 < 5 && 555 <= minutes % 1440 < 910
  }

  ghost predicate CooledDown(h: Host)
    reads h
  {
    h.LastRecorded().Some? ==> h.clock - h.LastRecorded().value >= COOLDOWN
  }

  /** Install a capacity policy, and the initial symbols where there are none. */
  method ConfigureControl(h: Host, policy: Policy, initial: seq<string>) returns (s: Status)
    requires h.Valid() && !h.apiRunning
    modifies h`capacity, h`desired
    ensures h.Valid() && h.Grown()
    ensures h.capacity == old(h.capacity) || h.capacity == Some(policy)
    ensures s == Done ==> h.capacity == Some(policy) && (initial != [] ==> h.desired.symbols != [])
    ensures old(h.desired.symbols) != [] || initial == [] ==> h.desired == old(h.desired)
    ensures |old(h.desired.symbols)| > policy.maxSymbols ==> s == Raised && h.capacity == old(h.capacity)
  {
    var desired := h.desired;
    if desired.symbols == [] && initial != [] {
      desired := Desired(desired.revision + 1, initial);
    }
    if |desired.symbols| > policy.maxSymbols {
      return Raised;
    }
    :- h.SaveCapacity(policy);
    s := h.SaveDesired(desired);
  }

  /** Stop the API, look at the desired symbols once more, stop the collector. */
  method StopOld(h: Host, replaced: Target, policy: Policy) returns (s: Status, apiStop: bool, oldStop: bool)
    requires h.Valid()
    modifies h`clock, h`desired, h`apiRunning, h`collectorRunning
    ensures h.Valid() && h.Grown() && old(h.clock) <= h.clock
    ensures s == Done || oldStop ==> !h.apiRunning
    ensures s == Done ==> apiStop && oldStop
    ensures oldStop ==> apiStop
    ensures !apiStop ==> h.apiRunning == old(h.apiRunning)
    ensures !oldStop ==> h.collectorRunning == old(h.collectorRunning)
    ensures h.collectorRunning ==> old(h.collectorRunning)
  {
    apiStop, oldStop := false, false;
    var at := h.Now();
    if InRestartWindow(at) {
      return Raised, apiStop, oldStop;
    }
    apiStop := true;
    s := h.StopApi();
    if s != Done { return; }
    s := h.Check();
    if s != Done { return; }
    if |h.desired.symbols| > policy.maxSymbols {
      return Raised, apiStop, oldStop;
    }
    oldStop := true;
    s := h.StopCollector();
    if s != Done { return; }
    s := h.Inspect(Some(replaced));
  }

  /** Record the start durably, then start the collector, then wait for its health. */
  method StartRecorded(h: Host, activating: Intent) returns (s: Status, started: bool, i: Intent)
    requires h.Valid() && activating.lastStart == h.LastRecorded() && CooledDown(h)
    modifies h`clock, h`desired, h`intent, h`recorded, h`commanded, h`collectorRunning
    ensures h.Valid() && h.Grown() && h.Recordable(i)
    ensures i.phase == activating.phase
    ensures h.intent == old(h.intent) || h.intent == Some(i)
    ensures started ==>
              h.intent == Some(i) && i.lastStart.Some? && h.commanded == old(h.commanded) + [i.lastStart.value]
    ensures !started ==> h.commanded == old(h.commanded) && h.collectorRunning == old(h.collectorRunning)
    ensures s == Done ==> started && h.collectorRunning
  {
    started := false;
    i := activating;
    s := h.Check();
    if s != Done { return; }
    var at := h.Now();
    i := activating.(lastStart := Some(at));
    s := h.SaveIntent(i);
    if s != Done { return; }
    started := true;
    s := h.StartCollector(at);
    if s != Done { return; }
    s := h.Check();
  }

  /** Policy, current link, phase: all of it while no API and no collector runs. */
  method SwitchOver(h: Host, replaced: Option<Target>, target: Target, policy: Policy, initial: seq<string>,
                    prepared: Intent)
    returns (s: Status, switched: bool, i: Intent)
    requires h.Valid() && !h.apiRunning && prepared.lastStart == h.LastRecorded()
    requires if replaced.Some? then h.desired.symbols != [] else initial != []
    modifies h`capacity, h`desired, h`current, h`intent, h`recorded
    ensures h.Valid() && h.Grown() && h.recorded == old(h.recorded)
    ensures h.capacity == old(h.capacity) || h.capacity == Some(policy)
    ensures h.current == old(h.current) || h.current == Some(target)
    ensures h.intent == old(h.intent) || h.intent == Some(i)
    ensures i == prepared || i == prepared.(phase := Activating)
    ensures switched ==> h.capacity == Some(policy) && h.current == Some(target) && h.desired.symbols != []
    ensures s == Done ==> switched && h.intent == Some(i) && i.phase == Activating
  {
    switched, i := false, prepared;
    s := ConfigureControl(h, policy, if replaced.Some? then [] else initial);
    if s != Done { return; }
    s := h.Check();
    if s != Done { return; }
    s := h.ChangeCurrent(target);
    if s != Done { return; }
    switched := true;
    i := prepared.(phase := Activating);
    s := h.SaveIntent(i);
  }

  /** Stage the candidate and stop what it replaces. */
  method TakeDown(h: Host, replaced: Option<Target>, target: Target, policy: Policy, rollback: bool)
    returns (s: Status, apiStop: bool, oldStop: bool)
    requires h.Valid() && (rollback ==> target in h.policies && h.policies[target] == policy)
    modifies h`policies, h`clock, h`desired, h`apiRunning, h`collectorRunning
    ensures h.Valid() && h.Grown() && old(h.clock) <= h.clock
    ensures forall t :: t in old(h.policies) ==> t in h.policies && h.policies[t] == old(h.policies)[t]
    ensures s == Done ==> !h.apiRunning && !h.collectorRunning && target in h.policies && h.policies[target] == policy
    ensures s == Done ==> apiStop == oldStop == replaced.Some?
    ensures replaced.None? ==> !apiStop
    ensures oldStop ==> apiStop && !h.apiRunning
    ensures !apiStop ==> h.apiRunning == old(h.apiRunning)
    ensures !oldStop ==> h.collectorRunning == old(h.collectorRunning)
    ensures h.collectorRunning ==> old(h.collectorRunning)
  {
    apiStop, oldStop := false, false;
    if !rollback {
      s := h.StageRelease(target, policy);
      if s != Done { return; }
    }
    s := h.Inspect(replaced);
    if s != Done { return; }
    if replaced.Some? {
      s, apiStop, oldStop := StopOld(h, replaced.value, policy);
      if s != Done { return; }
    }
    s := h.CheckStopped();
  }

  /** Units, API, health, and for a deployment the collector. */
  method BringUp(h: Host, rollback: bool, activating: Intent) returns (s: Status, started: bool, i: Intent)
    requires h.Valid() && h.capacity.Some? && activating.lastStart == h.LastRecorded() && (rollback || CooledDown(h))
    modifies h`clock, h`desired, h`intent, h`recorded, h`commanded, h`collectorRunning, h`apiRunning, h`apiLimit
    ensures h.Valid() && h.Grown() && h.Recordable(i)
    ensures i.phase == activating.phase
    ensures h.intent == old(h.intent) || h.intent == Some(i)
    ensures started ==> !rollback && i.lastStart.Some? && h.commanded == old(h.commanded) + [i.lastStart.value]
    ensures !started ==> h.commanded == old(h.commanded) && h.collectorRunning == old(h.collectorRunning)
    ensures s == Done ==> h.apiRunning && (!rollback ==> started && h.collectorRunning)
    ensures s == Done ==> h.LastRecorded() == i.lastStart
    ensures rollback ==> i == activating
  {
    started, i := false, activating;
    s := h.Check();
    if s != Done { return; }
    s := h.StartApi();
    if s != Done { return; }
    s := h.Check();
    if s != Done { return; }
    if !rollback {
      s, started, i := StartRecorded(h, activating);
    }
  }

  /** The records of a finished deployment. */
  method Commit(h: Host, replaced: Option<Target>, target: Target, activating: Intent) returns (s: Status, i: Intent)
    requires h.Valid() && activating.lastStart == h.LastRecorded() && h.desired.symbols != []
    requires target in h.policies && (replaced.Some? ==> replaced.value in h.policies) && replaced != Some(target)
    modifies h`desired, h`installed, h`intent, h`recorded
    ensures h.Valid() && h.Grown() && h.recorded == old(h.recorded)
    ensures i == activating || i == activating.(phase := Complete)
    ensures h.installed == old(h.installed) || h.installed == Some(Installed(target, replaced))
    ensures h.intent == old(h.intent) || (h.intent == Some(i) && h.installed == Some(Installed(target, replaced)))
    ensures s == Done ==> h.installed == Some(Installed(target, replaced)) && h.intent == Some(i) && i.phase == Complete
  {
    i := activating;
    s := h.Check();
    if s != Done { return; }
    s := h.SaveInstalled(Installed(target, replaced));
    if s != Done { return; }
    i := activating.(phase := Complete);
    s := h.SaveIntent(i);
    if s != Done { return; }
    s := h.Check();
  }

  /** From the stopped system to a committed deployment. */
  method Activate(h: Host, replaced: Option<Target>, target: Target, policy: Policy, initial: seq<string>,
                  rollback: bool, prepared: Intent)
    returns (s: Status, touched: bool, switched: bool, started: bool, i: Intent)
    requires h.Valid() && !h.apiRunning && !h.collectorRunning && h.intent == Some(prepared)
    requires prepared.phase == Prepared
    requires prepared.lastStart == h.LastRecorded() && (rollback || CooledDown(h))
    requires target in h.policies && h.policies[target] == policy
    requires (replaced.Some? ==> replaced.value in h.policies) && replaced != Some(target)
    requires if replaced.Some? then h.desired.symbols != [] else initial != []
    modifies h`capacity, h`desired, h`current, h`clock, h`intent, h`recorded, h`commanded, h`installed
    modifies h`collectorRunning, h`apiRunning, h`apiLimit
    ensures h.Valid() && h.Grown() && h.Recordable(i) && h.intent.Some?
    ensures touched ==> switched
    ensures started ==> touched
    ensures !touched ==> !h.apiRunning && h.installed == old(h.installed)
    ensures h.collectorRunning ==> started
    ensures if started then !rollback && i.lastStart.Some? && h.commanded == old(h.commanded) + [i.lastStart.value]
            else h.commanded == old(h.commanded)
    ensures h.capacity == old(h.capacity) || h.capacity == Some(policy)
    ensures h.current == old(h.current) || h.current == Some(target)
    ensures switched ==> h.current == Some(target)
    ensures h.installed == old(h.installed) || h.installed == Some(Installed(target, replaced))
    ensures h.intent.value.phase == Complete ==> h.installed == Some(Installed(target, replaced))
    ensures s == Done ==>
              && h.capacity == Some(policy) && h.current == Some(target)
              && h.installed == Some(Installed(target, replaced))
              && h.intent == Some(i) && i.phase == Complete && h.apiRunning
              && (!rollback ==> started && h.collectorRunning)
  {
    touched, started := false, false;
    s, switched, i := SwitchOver(h, replaced, target, policy, initial, prepared);
    if s != Done { return; }
    touched := true;
    s, started, i := BringUp(h, rollback, i);
    if s != Done { return; }
    s, i := Commit(h, replaced, target, i);
  }

  /** What the handler finds, wherever the `try` block ended. */
  ghost predicate Interrupted(before: Snapshot, after: Snapshot, f: Flags, replaced: Option<Target>, target: Target,
                              policy: Policy) {
    && (f.touched ==> f.switched)
    && (f.collectorStarted ==> f.touched)
    && (f.oldStop ==> f.apiStop)
    && (f.apiStop ==> replaced.Some?)
    && (f.switched && replaced.Some? ==> f.oldStop)
    && (f.switched ==> after.current == Some(target))
    && (f.switched && !f.touched ==> !after.apiRunning)
    && (!f.switched && !f.apiStop ==> after.apiRunning == before.apiRunning)
    && (after.collectorRunning ==> f.collectorStarted || (!f.switched && before.collectorRunning))
    && (!f.switched && !f.oldStop ==> after.collectorRunning == before.collectorRunning)
    && (after.capacity == before.capacity || after.capacity == Some(policy))
    && (after.current == before.current || after.current == Some(target))
    && (|| after.installed == before.installed
        || (f.touched && after.installed == Some(Installed(target, replaced))))
    && (f.collectorStarted || after.commanded == before.commanded)
    && after.intent.Some?
    && (after.intent.value.phase == Complete ==> after.installed == Some(Installed(target, replaced)))
    && (forall t :: t in before.policies ==> t in after.policies && after.policies[t] == before.policies[t])
  }

  /** The `try` block. The collector is started at most once, and never for a rollback. */
  method Attempt(h: Host, replaced: Option<Target>, target: Target, policy: Policy, initial: seq<string>,
                 rollback: bool, prepared: Intent)
    returns (s: Status, f: Flags, i: Intent)
    requires h.Valid() && h.Target() == replaced != Some(target)
    requires h.intent == Some(prepared) && prepared.phase == Prepared
    requires prepared.lastStart == h.LastRecorded() && (rollback || CooledDown(h))
    requires rollback ==> target in h.policies && h.policies[target] == policy
    requires initial != []
    modifies h
    ensures h.Valid() && h.Grown() && h.Recordable(i)
    ensures Interrupted(old(h.State()), h.State(), f, replaced, target, policy)
    ensures if f.collectorStarted
            then !rollback && i.lastStart.Some? && h.commanded == old(h.commanded) + [i.lastStart.value]
            else h.commanded == old(h.commanded)
    ensures s == Done ==>
              && h.installed == Some(Installed(target, replaced)) && h.InStep()
              && h.intent == Some(i) && i.phase == Complete
              && h.apiRunning && (!rollback ==> f.collectorStarted) && (h.collectorRunning <==> !rollback)
  {
    f, i := Flags(false, false, false, false, false), prepared;
    var apiStop, oldStop;
    s, apiStop, oldStop := TakeDown(h, replaced, target, policy, rollback);
    f := f.(apiStop := apiStop, oldStop := oldStop);
    if s != Done { return; }
    var touched, switched, started;
    s, touched, switched, started, i := Activate(h, replaced, target, policy, initial, rollback, prepared);
    f := Flags(touched, switched, started, oldStop, apiStop);
  }

  /** Compensation of an upgrade or rollback that got as far as the current link. */
  method SwitchBack(h: Host, replaced: Target, oldPolicy: Policy, i: Intent) returns (s: Status)
    requires h.Valid() && !h.apiRunning && h.Recordable(i)
    modifies h`capacity, h`desired, h`current, h`apiRunning, h`apiLimit, h`intent, h`recorded
    ensures h.Valid() && h.Grown() && h.Recordable(i)
    ensures h.intent == old(h.intent) || h.intent == Some(i.(phase := Blocked))
    ensures s == Done ==> h.capacity == Some(oldPolicy) && h.current == Some(replaced) && h.apiRunning
    ensures |old(h.desired.symbols)| > oldPolicy.maxSymbols ==> s != Done && h.capacity == old(h.capacity)
  {
    if |h.desired.symbols| > oldPolicy.maxSymbols {
      s := h.SaveIntent(i.(phase := Blocked));
      return if s == Crashed then Crashed else Raised;
    }
    :- ConfigureControl(h, oldPolicy, []);
    :- h.ChangeCurrent(replaced);
    :- h.Check();
    s := h.StartApi();
  }

  /** Compensation of a first install that got as far as the current link. */
  method RemoveFirstInstall(h: Host, target: Target) returns (s: Status)
    requires h.Valid() && !h.apiRunning
    modifies h`desired, h`current
    ensures h.Valid() && h.Grown()
    ensures s == Done ==> h.current == if old(h.current) == Some(target) then None else old(h.current)
  {
    s := h.Check();
    if s != Done { return; }
    if h.current == Some(target) {
      :- h.RemoveCurrent();
    }
    s := h.Check();
  }

  method StopBoth(h: Host, collector: bool, api: bool) returns (s: Status)
    requires h.Valid()
    modifies h`desired, h`apiRunning, h`collectorRunning
    ensures h.Valid() && h.Grown()
    ensures s == Done && (collector || !old(h.collectorRunning)) ==> !h.collectorRunning
    ensures s == Done && (api || !old(h.apiRunning)) ==> !h.apiRunning
  {
    if collector {
      :- h.StopCollector();
    }
    if api {
      :- h.StopApi();
    }
    s := Done;
  }

  /** What the handler undoes once the current link has been switched. */
  method Undo(h: Host, f: Flags, i: Intent, replaced: Option<Target>, target: Target, oldPolicy: Policy)
    returns (s: Status)
    requires h.Valid() && h.Recordable(i)
    requires f.touched || !h.apiRunning
    requires h.collectorRunning && replaced.None? ==> f.collectorStarted
    modifies h`capacity, h`desired, h`current, h`apiRunning, h`apiLimit, h`collectorRunning, h`intent, h`recorded
    ensures h.Valid() && h.Grown() && h.Recordable(i)
    ensures h.intent == old(h.intent) || h.intent == Some(i.(phase := Blocked))
    ensures s == Done ==> !h.collectorRunning
    ensures s == Done && replaced.Some? ==> h.capacity == Some(oldPolicy) && h.current == replaced && h.apiRunning
    ensures replaced.None? ==> h.capacity == old(h.capacity)
    ensures s == Done && replaced.None? ==> !h.apiRunning && (old(h.current) == Some(target) ==> h.current.None?)
  {
    s := StopBoth(h, f.collectorStarted || replaced.Some?, f.touched);
    if s != Done { return; }
    if replaced.Some? {
      s := SwitchBack(h, replaced.value, oldPolicy, i);
    } else {
      s := RemoveFirstInstall(h, target);
    }
  }

  /** What the handler has undone by the time its last intent is saved. */
  ghost predicate Undone(before: Snapshot, after: Snapshot, f: Flags, replaced: Option<Target>, target: Target,
                         oldPolicy: Policy) {
    && (f.switched || f.oldStop ==> !after.collectorRunning)
    && (f.switched && replaced.Some? ==>
          after.capacity == Some(oldPolicy) && after.current == replaced && after.apiRunning)
    && (f.switched && replaced.None? ==>
          && !after.apiRunning && after.capacity == before.capacity
          && (before.current == Some(target) ==> after.current.None?))
    && (!f.switched ==>
          && after.capacity == before.capacity && after.current == before.current
          && after.collectorRunning == before.collectorRunning
          && after.apiRunning == (f.apiStop || before.apiRunning))
  }

  method Revert(h: Host, f: Flags, i: Intent, replaced: Option<Target>, target: Target, oldPolicy: Policy)
    returns (s: Status)
    requires h.Valid() && h.Recordable(i)
    requires f.switched ==> f.touched || !h.apiRunning
    requires f.apiStop ==> h.capacity.Some?
    requires f.oldStop ==> f.apiStop
    requires f.switched && h.collectorRunning && replaced.None? ==> f.collectorStarted
    modifies h`capacity, h`desired, h`current, h`apiRunning, h`apiLimit, h`collectorRunning, h`intent, h`recorded
    ensures h.Valid() && h.Grown() && h.Recordable(i)
    ensures h.intent == old(h.intent) || h.intent == Some(i.(phase := Blocked))
    ensures s == Done ==> Undone(old(h.State()), h.State(), f, replaced, target, oldPolicy)
    ensures !f.switched || replaced.None? ==> h.capacity == old(h.capacity)
    ensures !f.switched ==> h.current == old(h.current) && h.collectorRunning == old(h.collectorRunning)
  {
    if f.switched {
      s := Undo(h, f, i, replaced, target, oldPolicy);
    } else if f.apiStop {
      s := h.StartApi();
      if s == Done && f.oldStop {
        s := h.CheckStopped();
      }
    } else {
      s := Done;
    }
  }

  /** The intent that ends a failed deployment. */
  method Conclude(h: Host, i: Intent) returns (s: Status, ghost settled: bool)
    requires h.Valid() && h.Recordable(i)
    modifies h`desired, h`intent, h`recorded
    ensures h.Valid() && h.Grown()
    ensures s == Done ==> settled
    ensures if settled then h.intent == Some(i.(phase := Complete)) else h.intent == old(h.intent)
  {
    s := h.SaveIntent(i.(phase := Complete));
    settled := h.intent == Some(i.(phase := Complete));
    if s == Done {
      s := h.Check();
    }
  }

  /** The compensating handler. It never starts the collector. It has settled once its last intent has
      landed, even if it fails or dies right behind that. */
  method Compensate(h: Host, f: Flags, i: Intent, replaced: Option<Target>, target: Target, oldPolicy: Policy)
    returns (s: Status, ghost settled: bool)
    requires h.Valid() && h.Recordable(i)
    requires f.switched ==> f.touched || !h.apiRunning
    requires f.apiStop ==> h.capacity.Some?
    requires f.oldStop ==> f.apiStop
    requires f.switched && h.collectorRunning && replaced.None? ==> f.collectorStarted
    modifies h`capacity, h`desired, h`current, h`apiRunning, h`apiLimit, h`collectorRunning, h`intent, h`recorded
    ensures h.Valid() && h.Grown()
    ensures s == Done ==> settled
    ensures if settled then h.intent == Some(i.(phase := Complete))
            else h.intent == old(h.intent) || h.intent == Some(i.(phase := Blocked))
    ensures settled ==> Undone(old(h.State()), h.State(), f, replaced, target, oldPolicy)
    ensures !f.switched || replaced.None? ==> h.capacity == old(h.capacity)
    ensures !f.switched ==> h.current == old(h.current) && h.collectorRunning == old(h.collectorRunning)
  {
    settled := false;
    s := Revert(h, f, i, replaced, target, oldPolicy);
    if s != Done { return; }
    s, settled := Conclude(h, i);
  }

  /** `initial` are the first twenty verified symbols of an accepted proof, so there are some. */
  datatype Request = Request(target: Target, acceptance: Policy, initial: seq<string>, rollback: bool)

  /** A rollback goes back to the policy of the staged release; a deployment brings its own. */
  function PolicyFor(policies: map<Target, Policy>, r: Request): Policy {
    if r.rollback && r.target in policies then policies[r.target] else r.acceptance
  }

  /** Why a state and a request do not go together, the first reason first. */
  function Reason(h: Host, r: Request): Option<Refusal>
    reads h
  {
    if h.intent.Some? && h.intent.value.phase != Complete then Some(IncompleteIntent)
    else if !h.InStep() then Some(OutOfStep)
    else if r.rollback && (h.installed.None? || h.installed.value.previous != Some(r.target))
    then Some(RollbackNotRecorded)
    else if !r.rollback && h.Target() == Some(r.target) then Some(AlreadyCurrent)
    else if |h.desired.symbols| > PolicyFor(h.policies, r).maxSymbols then Some(CapacityConflict)
    else if h.installed.Some? && InRestartWindow(h.clock) then Some(RestartWindow)
    else if !r.rollback && h.intent.Some? && h.intent.value.lastStart.Some?
            && h.clock - h.intent.value.lastStart.value < COOLDOWN then Some(Cooldown)
    else None
  }

  /** The preflight. It writes nothing, and apart from failing checks it refuses exactly for a reason. */
  method Admit(h: Host, r: Request) returns (refused: Option<Outcome>, policy: Policy, prepared: Intent)
    requires h.Valid()
    modifies h`desired, h`clock
    ensures h.Valid() && h.Grown()
    ensures h.State().Halted() ==> refused.Some?
    ensures refused.Some? ==> refused.value.Refused? || refused.value.Died?
    ensures refused.Some? && refused.value.Refused? && refused.value.why != Preflight ==>
              Reason(h, r) == Some(refused.value.why)
    ensures refused.None? ==> Reason(h, r).None?
    ensures refused.None? ==>
              && prepared == Intent(Prepared, h.LastRecorded())
              && (r.rollback || CooledDown(h))
              && (h.installed.Some? ==> !InRestartWindow(h.clock))
              && |h.desired.symbols| <= policy.maxSymbols
              && policy == PolicyFor(h.policies, r)
    ensures refused.None? && r.rollback ==>
              h.installed.Some? && h.installed.value.previous == Some(r.target) && r.target in h.policies
    ensures refused.None? ==> h.Target() != Some(r.target)
  {
    policy, prepared := r.acceptance, Intent(Prepared, None);
    var s := h.Check();
    if s != Done {
      return Some(if s == Crashed then Died else Refused(Preflight)), policy, prepared;
    }
    if h.intent.Some? && h.intent.value.phase != Complete {
      return Some(Refused(IncompleteIntent)), policy, prepared;
    }
    if !h.InStep() {
      return Some(Refused(OutOfStep)), policy, prepared;
    }
    s := h.Inspect(h.Target());
    if s != Done {
      return Some(if s == Crashed then Died else Refused(Preflight)), policy, prepared;
    }
    if r.rollback {
      if h.installed.None? || h.installed.value.previous != Some(r.target) {
        return Some(Refused(RollbackNotRecorded)), policy, prepared;
      }
      policy := h.policies[r.target];
    } else if h.Target() == Some(r.target) {
      return Some(Refused(AlreadyCurrent)), policy, prepared;
    }
    if |h.desired.symbols| > policy.maxSymbols {
      return Some(Refused(CapacityConflict)), policy, prepared;
    }
    var at := h.Now();
    if h.installed.Some? && InRestartWindow(at) {
      return Some(Refused(RestartWindow)), policy, prepared;
    }
    if h.intent.Some? {
      prepared := Intent(Prepared, h.intent.value.lastStart);
    }
    if !r.rollback && prepared.lastStart.Some? && at - prepared.lastStart.value < COOLDOWN {
      return Some(Refused(Cooldown)), policy, prepared;
    }
    refused := None;
  }

  /** What a failed deployment leaves behind. The collector runs only if it ran before and was never
      stopped; a replaced API is up again. The installation is still in step with policy and link,
      or one of them was written just before the failure and not taken back. */
  ghost predicate LeftByFailure(before: Snapshot, after: Snapshot, r: Request) {
    && after.intent.Some? && after.intent.value.phase == Complete
    && (after.collectorRunning ==> before.collectorRunning && after.commanded == before.commanded)
    && (before.installed.Some? && before.apiRunning ==> after.apiRunning)
    && (|| (after.installed == before.installed && after.capacity == before.capacity && after.current == before.current)
        || (&& after.installed == before.installed
            && (after.capacity == Some(PolicyFor(before.policies, r)) || after.current == Some(r.target)))
        || (&& after.installed == Some(Installed(r.target, CurrentOf(before.installed)))
            && after.current == before.current
            && (before.installed.Some? ==> after.capacity == before.capacity)))
  }

  /** How an invocation that died or could not undo itself can leave a complete intent: its own commit
      had landed, or the handler's last intent had. */
  ghost predicate Escaped(before: Snapshot, after: Snapshot, r: Request) {
    && after.intent.Some? && after.intent.value.phase == Complete
    && (|| after.installed == Some(Installed(r.target, CurrentOf(before.installed)))
        || LeftByFailure(before, after, r))
  }

  /** Where the `try` block ended: the flags it had set, and the state it left to the handler. */
  datatype Trace = Trace(f: Flags, mid: Snapshot)

  /** The installation had been recorded, or the link or a new policy had been written without the
      deployment getting to know that it had switched. */
  ghost predicate LeftOutOfStep(before: Snapshot, trace: Trace) {
    || trace.mid.installed != before.installed
    || (&& !trace.f.switched
        && (|| trace.mid.current != before.current
            || (before.installed.Some? && trace.mid.capacity != before.capacity)))
  }

  /** A deployment that undid itself is halted all the same, exactly then. */
  lemma HaltedAfterFailure(before: Snapshot, trace: Trace, after: Snapshot, r: Request, oldPolicy: Policy)
    requires var replaced, policy := CurrentOf(before.installed), PolicyFor(before.policies, r);
             && Interrupted(before, trace.mid, trace.f, replaced, r.target, policy)
             && Undone(trace.mid, after, trace.f, replaced, r.target, oldPolicy)
    requires Matches(before.installed, before.capacity, before.current, before.policies)
    requires CurrentOf(before.installed) != Some(r.target)
    requires before.installed.Some? ==> before.capacity == Some(oldPolicy)
    requires after.intent.Some? && after.intent.value.phase == Complete
    requires after.installed == trace.mid.installed && after.policies == trace.mid.policies
    ensures after.Halted() <==> LeftOutOfStep(before, trace)
  {
  }

  /** The handler's work, seen from before the deployment. */
  lemma UndoneIsLeft(before: Snapshot, trace: Trace, after: Snapshot, r: Request, oldPolicy: Policy)
    requires var replaced, policy := CurrentOf(before.installed), PolicyFor(before.policies, r);
             && Interrupted(before, trace.mid, trace.f, replaced, r.target, policy)
             && Undone(trace.mid, after, trace.f, replaced, r.target, oldPolicy)
    requires Matches(before.installed, before.capacity, before.current, before.policies)
    requires CurrentOf(before.installed) != Some(r.target)
    requires before.installed.Some? ==> before.capacity == Some(oldPolicy)
    requires after.intent.Some? && after.intent.value.phase == Complete
    requires after == trace.mid.(capacity := after.capacity, current := after.current, apiRunning := after.apiRunning,
                                 collectorRunning := after.collectorRunning, intent := after.intent,
                                 recorded := after.recorded)
    ensures LeftByFailure(before, after, r) && (after.Halted() <==> LeftOutOfStep(before, trace))
  {
    HaltedAfterFailure(before, trace, after, r, oldPolicy);
  }

  /** What each outcome of an admitted invocation says. The collector is started at most once and never
      for a rollback; a failed deployment that undid itself is halted exactly where it was left out of
      step; an invocation that died, or could not undo itself, leaves the deployer halted unless its
      complete intent escaped. */
  ghost predicate Ended(before: Snapshot, r: Request, o: Outcome, after: Snapshot, trace: Trace) {
    && before.commanded <= after.commanded
    && |after.commanded| <= |before.commanded| + (if r.rollback then 0 else 1)
    && (o == Deployed || o == RolledBack ==>
          && (o == RolledBack) == r.rollback && !after.Halted()
          && after.installed == Some(Installed(r.target, CurrentOf(before.installed)))
          && after.apiRunning && (after.collectorRunning <==> !r.rollback)
          && (!r.rollback ==> |after.commanded| == |before.commanded| + 1))
    && (o == Failed ==>
          && LeftByFailure(before, after, r)
          && Interrupted(before, trace.mid, trace.f, CurrentOf(before.installed), r.target,
                         PolicyFor(before.policies, r))
          && (after.Halted() <==> LeftOutOfStep(before, trace)))
    && (o.Died? || o == RollbackIncomplete ==> after.Halted() || Escaped(before, after, r))
  }

  /** The prepared intent is all that was written before. */
  lemma EndedFromPrepared(before: Snapshot, mid: Snapshot, r: Request, o: Outcome, after: Snapshot, trace: Trace)
    requires mid == before.(intent := mid.intent) && Ended(mid, r, o, after, trace)
    ensures Ended(before, r, o, after, trace)
  {
  }

  /** The handler behind a `try` block that raised. */
  method Recover(h: Host, ghost before: Snapshot, r: Request, f: Flags, i: Intent, replaced: Option<Target>,
                 oldPolicy: Policy)
    returns (o: Outcome)
    requires h.Valid() && h.Recordable(i) && replaced == CurrentOf(before.installed) != Some(r.target)
    requires Matches(before.installed, before.capacity, before.current, before.policies)
    requires Interrupted(before, h.State(), f, replaced, r.target, PolicyFor(before.policies, r))
    requires before.installed.Some? ==> before.capacity == Some(oldPolicy)
    modifies h`capacity, h`desired, h`current, h`apiRunning, h`apiLimit, h`collectorRunning, h`intent, h`recorded
    ensures h.Valid() && h.Grown() && !o.Refused? && o != Deployed && o != RolledBack
    ensures o == Failed ==> LeftByFailure(before, h.State(), r)
    ensures o == Failed ==> (h.State().Halted() <==> LeftOutOfStep(before, Trace(f, old(h.State()))))
    ensures o != Failed ==> h.State().Halted() || Escaped(before, h.State(), r)
  {
    ghost var mid, settled := h.State(), false;
    var s;
    s, settled := Compensate(h, f, i, replaced, r.target, oldPolicy);
    if settled {
      UndoneIsLeft(before, Trace(f, mid), h.State(), r, oldPolicy);
    }
    o := if s == Done then Failed else if s == Crashed then Died else RollbackIncomplete;
  }

  /** The `try` block and its handler, behind the prepared intent. */
  method CarryOut(h: Host, r: Request, policy: Policy, prepared: Intent) returns (o: Outcome, ghost trace: Trace)
    requires h.Valid() && h.InStep() && h.intent == Some(prepared) && prepared.phase == Prepared && r.initial != []
    requires prepared.lastStart == h.LastRecorded() && (r.rollback || CooledDown(h))
    requires policy == PolicyFor(h.policies, r) && (r.rollback ==> r.target in h.policies)
    requires h.Target() != Some(r.target)
    modifies h
    ensures h.Valid() && h.Grown() && !o.Refused?
    ensures Ended(old(h.State()), r, o, h.State(), trace)
  {
    ghost var before := h.State();
    var replaced := h.Target();
    var oldPolicy := if h.installed.Some? then h.policies[h.installed.value.current] else policy;
    var s, f, i := Attempt(h, replaced, r.target, policy, r.initial, r.rollback, prepared);
    trace := Trace(f, h.State());
    if s == Done {
      return if r.rollback then RolledBack else Deployed, trace;
    }
    if s == Crashed {
      return Died, trace;
    }
    o := Recover(h, before, r, f, i, replaced, oldPolicy);
  }

  /** Behind the preflight: the prepared intent, then the rest. */
  method Proceed(h: Host, r: Request, policy: Policy, prepared: Intent) returns (o: Outcome, ghost trace: Trace)
    requires h.Valid() && h.InStep() && r.initial != []
    requires prepared == Intent(Prepared, h.LastRecorded()) && (r.rollback || CooledDown(h))
    requires policy == PolicyFor(h.policies, r) && (r.rollback ==> r.target in h.policies)
    requires h.Target() != Some(r.target)
    modifies h
    ensures h.Valid() && h.Grown() && !o.Refused?
    ensures (o.Died? && h.State() == old(h.State())) || Ended(old(h.State()), r, o, h.State(), trace)
  {
    trace := Trace(Flags(false, false, false, false, false), h.State());
    var s := h.SaveIntent(prepared);
    if s != Done {
      return Died, trace;
    }
    s := h.Check();
    if s != Done {
      return Died, trace;
    }
    ghost var mid := h.State();
    o, trace := CarryOut(h, r, policy, prepared);
    EndedFromPrepared(old(h.State()), mid, r, o, h.State(), trace);
  }

  /** One invocation: once halted, it is refused or dies and writes nothing; refused, it writes nothing;
      otherwise it ends as its outcome says, or dies before it has written anything. */
  ghost predicate Step(before: Snapshot, r: Request, o: Outcome, after: Snapshot, trace: Trace) {
    && (before.Halted() ==> (o.Refused? || o.Died?) && after == before)
    && (o.Refused? ==> after == before)
    && (!o.Refused? ==> Ended(before, r, o, after, trace) || (o.Died? && after == before))
  }

  /** One invocation of the deployer, which may fail or die at every step. */
  method Deploy(h: Host, r: Request) returns (o: Outcome, ghost trace: Trace)
    requires h.Valid() && r.initial != []
    modifies h
    ensures h.Valid() && h.Grown()
    ensures Step(old(h.State()), r, o, h.State(), trace)
    ensures o == RolledBack ==> old(h.installed).Some? && old(h.installed).value.previous == Some(r.target)
  {
    var refused, policy, prepared := Admit(h, r);
    if refused.Some? {
      return refused.value, Trace(Flags(false, false, false, false, false), h.State());
    }
    o, trace := Proceed(h, r, policy, prepared);
  }

  /** Every run of the deployer, invocation after invocation, under any failures: collector starts
      are issued behind a durable record, a minute apart; no symbol is lost; and once halted, the
      deployer writes nothing any more. */
  method DeployAll(h: Host, requests: seq<Request>)
    returns (outcomes: seq<Outcome>, ghost run: seq<Snapshot>, ghost traces: seq<Trace>)
    requires h.Valid() && forall r :: r in requests ==> r.initial != []
    modifies h
    ensures h.Valid() && h.Grown() && |outcomes| == |traces| == |requests| && |run| == |requests| + 1
    ensures old(h.commanded) <= h.commanded && |h.commanded| <= |old(h.commanded)| + |requests|
    ensures run[0] == old(h.State()) && run[|requests|] == h.State()
    ensures forall n :: 0 <= n < |requests| ==> Step(run[n], requests[n], outcomes[n], run[n + 1], traces[n])
    ensures forall m, n :: 0 <= m <= n <= |requests| && run[m].Halted() ==> run[n] == run[m]
    ensures forall m, n :: 0 <= m <= n < |requests| && run[m].Halted() ==> outcomes[n].Refused? || outcomes[n].Died?
  {
    outcomes, run, traces := [], [h.State()], [];
    for n := 0 to |requests|
      invariant h.Valid() && h.Grown() && |outcomes| == |traces| == n && |run| == n + 1
      invariant old(h.commanded) <= h.commanded && |h.commanded| <= |old(h.commanded)| + n
      invariant run[0] == old(h.State()) && run[n] == h.State()
      invariant forall m :: 0 <= m < n ==> Step(run[m], requests[m], outcomes[m], run[m + 1], traces[m])
    {
      var o, trace := Deploy(h, requests[n]);
      outcomes, run, traces := outcomes + [o], run + [h.State()], traces + [trace];
    }
    forall m, n | 0 <= m <= n <= |requests| && run[m].Halted()
      ensures run[n] == run[m] && (n < |requests| ==> outcomes[n].Refused? || outcomes[n].Died?)
    {
      StaysHalted(run, requests, outcomes, traces, m, n);
    }
  }

  lemma {:induction false} StaysHalted(run: seq<Snapshot>, requests: seq<Request>, outcomes: seq<Outcome>,
                                       traces: seq<Trace>, m: nat, n: nat)
    requires |run| == |requests| + 1 && |outcomes| == |traces| == |requests| && m <= n <= |requests| && run[m].Halted()
    requires forall k :: 0 <= k < |requests| ==> Step(run[k], requests[k], outcomes[k], run[k + 1], traces[k])
    ensures run[n] == run[m]
    ensures n < |requests| ==> outcomes[n].Refused? || outcomes[n].Died?
    decreases n
  {
    if m < n {
      StaysHalted(run, requests, outcomes, traces, m, n - 1);
      assert Step(run[n - 1], requests[n - 1], outcomes[n - 1], run[n], traces[n - 1]);
    }
    assert n < |requests| ==> Step(run[n], requests[n], outcomes[n], run[n + 1], traces[n]);
  }

  // ---- Where a failure or a crash leaves the deployer ----

  /** An upgrade from "a" to "b" whose audit raises right behind the new policy: the handler restarts the
      API and saves a complete intent, and policy and installation no longer belong together. */
  lemma PolicyLeftBehind()
    ensures var p, q := Policy(20, "treeA", "shaA"), Policy(20, "treeB", "shaB");
            var r := Request("b", q, ["600000"], false);
            var before := Snapshot(Some(p), Some("a"), map["a" := p], true, true, Some(Intent(Prepared, Some(0))),
                                   Some(Installed("a", None)), [0], [0]);
            var mid := before.(capacity := Some(q), policies := map["a" := p, "b" := q],
                               apiRunning := false, collectorRunning := false);
            var after := mid.(apiRunning := true, intent := Some(Intent(Complete, Some(0))));
            var f := Flags(false, false, false, true, true);
            && Interrupted(before, mid, f, Some("a"), "b", q) && Undone(mid, after, f, Some("a"), "b", p)
            && LeftByFailure(before, after, r) && LeftOutOfStep(before, Trace(f, mid))
            && Matches(before.installed, before.capacity, before.current, before.policies) && after.Halted()
  {
  }

  /** A commit whose complete intent landed and that raised behind it: the handler stops both units, and
      if the process dies there, the deployer is not halted although nothing runs. */
  method DieAfterCommit(h: Host, replaced: Option<Target>, target: Target, activating: Intent)
    returns (committed: Status, stopped: Status)
    requires h.Valid() && activating.lastStart == h.LastRecorded() && h.desired.symbols != []
    requires h.intent == Some(activating) && activating.phase == Activating
    requires target in h.policies && (replaced.Some? ==> replaced.value in h.policies) && replaced != Some(target)
    requires h.current == Some(target) && h.capacity == Some(h.policies[target])
    modifies h`desired, h`installed, h`intent, h`recorded, h`apiRunning, h`collectorRunning
    ensures h.Valid() && h.Grown()
    ensures h.State().Halted() <==> h.intent == old(h.intent)
    ensures committed != Done && stopped == Done ==> !h.apiRunning && !h.collectorRunning
  {
    var i;
    committed, i := Commit(h, replaced, target, activating);
    stopped := Done;
    if committed != Done {
      stopped := StopBoth(h, true, true);
    }
  }
}
