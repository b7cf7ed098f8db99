/**
 The L2 archive deployment (scripts/deploy-l2-archive.py): preflight, a remote initialisation
 that must not be repeated, activation, and the compensating handler.
 */
module ArchiveDeploy {
  import opened Basics
  import opened ArchiveHost

  datatype Refusal =
    | ForeignCurrent | IncompleteIntent | RollbackNotRecorded | AlreadyCurrent | ReleaseExists | Preflight

  datatype Outcome =
    | Deployed | RolledBack
    | Refused(why: Refusal)
    | ActivationFailed       // the compensating handler got through
    | RollbackIncomplete     // the compensating handler failed as well
    | Died

  /** What runs of the deployer keep about remote initialisation: each was issued for another
      target, and the release directory of every one of them still exists. A recorded candidate is
      the release of the recorded target. */
  ghost predicate InitLedger(h: Host)
    reads h
  {
    && Distinct(h.inits) && (forall t :: t in h.inits ==> t in h.releases)
    && (h.intent.Some? && h.intent.value.candidate.Some? ==> h.intent.value.candidate == Some(h.intent.value.newTarget))
  }

  method InstallUnits(h: Host, target: Target) returns (s: Status)
    modifies h`service, h`timer, h`loaded
    ensures s == Done ==>
              h.service == Some(h.unitsOf(target).service) && h.timer == Some(h.unitsOf(target).timer) && h.loaded
  {
    s := h.InstallService(h.unitsOf(target).service);
    if s != Done { return; }
    :- h.InstallTimer(h.unitsOf(target).timer);
    s := h.DaemonReload();
  }

  method RestoreTimer(h: Host, enabled: bool, active: bool) returns (s: Status)
    modifies h`enabled, h`active
    ensures s == Done ==> h.enabled == enabled && (active ==> h.active) && (!active ==> h.active == old(h.active))
  {
    s := h.EnableTimer(enabled);
    if s != Done { return; }
    if active {
      :- h.StartTimer();
    }
    s := Done;
  }

  /** The steps of the `try` block. Its first statement already tells the handler that something
      was attempted, so the handler always has work to do. */
  method Activate(h: Host, replaced: Option<Target>, target: Target, record: Target, intent: Intent, wasEnabled: bool,
                  wasActive: bool)
    returns (s: Status)
    modifies h`current, h`next, h`service, h`timer, h`loaded, h`enabled, h`active, h`installed, h`intent
    ensures s == Done ==>
              && h.Seen() == System(Some(target), Some(h.unitsOf(target).service), Some(h.unitsOf(target).timer),
                                    wasEnabled, wasActive, Some(Installation(record, replaced)))
              && h.intent == Some(intent.(phase := Complete))
    ensures h.intent == old(h.intent) || h.intent == Some(intent.(phase := Complete))
    ensures (h.enabled && !old(h.enabled)) || (h.active && !old(h.active)) ==> h.loaded
  {
    if replaced.Some? {
      :- h.StopTimer();
      :- h.StopService();
      var _, _ :- h.Inspect(replaced);
    }
    :- h.ChangeCurrent(target);
    :- InstallUnits(h, target);
    :- RestoreTimer(h, wasEnabled, wasActive);
    var nowEnabled, nowActive :- h.Inspect(Some(target));
    if nowEnabled != wasEnabled || nowActive != wasActive {
      return Raised;
    }
    :- h.SaveInstalled(Installation(record, replaced));
    :- h.SaveIntent(intent.(phase := Complete));
    s := h.Check();
  }

  /** Compensation of an upgrade or rollback: stop, switch back, reinstall, restore the timer. */
  method SwitchBack(h: Host, old_: Target, wasEnabled: bool, wasActive: bool) returns (s: Status)
    modifies h`current, h`next, h`service, h`timer, h`loaded, h`enabled, h`active
    ensures s == Done ==>
              && h.current == Some(old_)
              && h.service == Some(h.unitsOf(old_).service) && h.timer == Some(h.unitsOf(old_).timer)
              && h.enabled == wasEnabled && h.active == wasActive
  {
    s := h.StopTimer();
    if s != Done { return; }
    :- h.StopService();
    :- h.ChangeCurrent(old_);
    :- InstallUnits(h, old_);
    s := RestoreTimer(h, wasEnabled, wasActive);
  }

  /** Compensation of a first install: remove what this deployment put there, and nothing else. */
  method RemoveFirstInstall(h: Host, target: Target) returns (s: Status)
    modifies h`current, h`next, h`service, h`timer, h`loaded, h`enabled, h`active
    ensures s == Done ==> h.current.None? && h.next.None? && h.service.None? && h.timer.None? && !h.active
    ensures s == Done ==> (h.enabled ==> old(h.enabled) && !old(h.loaded))
    ensures s == Done && old(h.timer).None? ==> h.enabled == old(h.enabled)
  {
    // The timer first: UNITS in reverse order.
    var isLoaded, isActive :- h.TimerView();
    var absent := !isLoaded && !isActive;
    if h.timer.None? {
      if !absent {
        return Raised;
      }
    } else {
      if h.timer != Some(h.unitsOf(target).timer) {
        return Raised;
      }
      if !absent {
        if !isLoaded {
          return Raised;
        }
        :- h.StopTimer();
        :- h.EnableTimer(false);
      }
      :- h.RemoveTimer();
    }
    :- h.Check();
    if h.service.Some? {
      if h.service != Some(h.unitsOf(target).service) {
        return Raised;
      }
      :- h.StopService();
      :- h.RemoveService();
    }
    if h.current.Some? {
      if h.current != Some(target) {
        return Raised;
      }
      h.current := None;
    }
    if h.next.Some? {
      if h.next != Some(target) {
        return Raised;
      }
      h.next := None;
    }
    :- h.Check();
    s := h.DaemonReload();
  }

  /** The compensating handler. If it gets through, the system is as it was before the deployment. */
  method Compensate(h: Host, before: Option<Installation>, target: Target, record: Target, intent: Intent,
                    wasEnabled: bool, wasActive: bool)
    returns (s: Status)
    modifies h`current, h`next, h`service, h`timer, h`loaded, h`enabled, h`active, h`installed, h`intent
    ensures h.intent == old(h.intent) || h.intent == Some(intent.(phase := Complete))
    ensures s == Done ==> h.installed == before && h.intent == Some(intent.(phase := Complete))
    ensures s == Done && before.Some? ==>
              var t := before.value.current;
              && h.current == Some(t) && h.service == Some(h.unitsOf(t).service) && h.timer == Some(h.unitsOf(t).timer)
              && h.enabled == wasEnabled && h.active == wasActive
    ensures s == Done && before.None? ==> h.current.None? && h.service.None? && h.timer.None? && !h.active
    ensures s == Done && before.None? ==> (h.enabled ==> old(h.enabled) && !old(h.loaded))
    ensures s == Done && before.None? && old(h.timer).None? ==> h.enabled == old(h.enabled)
  {
    if before.Some? {
      :- SwitchBack(h, before.value.current, wasEnabled, wasActive);
      :- h.SaveInstalled(before.value);
    } else {
      :- RemoveFirstInstall(h, target);
      if h.installed.Some? {
        if h.installed != Some(Installation(record, None)) {
          return Raised;
        }
        :- h.RemoveInstalled();
      }
    }
    :- h.SaveIntent(intent.(phase := Complete));
    s := h.Check();
  }

  // ---- Preflight and the remote command ----

  /** The deployment may go on from the durable intent of an earlier attempt on the same target. */
  predicate Resumes(prior: Option<Intent>, replaced: Option<Target>, target: Target) {
    && prior.Some? && prior.value.newTarget == target && prior.value.oldTarget == replaced
    && prior.value.candidate.Some?
    && (replaced.Some? || prior.value.initializationAttempted)
  }

  /** Whether this deployment may start, by what is recorded. */
  function Admission(installed: Option<Installation>, current: Option<Target>, prior: Option<Intent>,
      target: Target, rollback: bool): Option<Refusal>
  {
    var replaced := if installed.Some? then Some(installed.value.current) else None;
    if current != replaced then Some(ForeignCurrent)
    else if prior.Some? && prior.value.phase != Complete && !Resumes(prior, replaced, target)
    then Some(IncompleteIntent)
    else if rollback && (installed.None? || installed.value.previous != Some(target)) then Some(RollbackNotRecorded)
    else if !rollback && replaced == Some(target) then Some(AlreadyCurrent)
    else None
  }

  /** The checks before anything is written. The foreign link is noticed before the units are
      inspected, the other refusals after. */
  method Preflight(h: Host, target: Target, rollback: bool)
    returns (refused: Option<Outcome>, enabled: bool, active: bool)
    ensures refused.Some? ==> refused.value.Refused? || refused.value.Died?
    ensures refused.Some? && refused.value.Refused? && refused.value.why != Refusal.Preflight ==>
              Admission(h.installed, h.current, h.intent, target, rollback) == Some(refused.value.why)
    ensures refused.None? ==>
              && Admission(h.installed, h.current, h.intent, target, rollback).None?
              && enabled == h.enabled && active == h.active
              && (h.installed.None? ==> h.service.None? && h.timer.None? && !h.loaded)
              && (h.installed.Some? ==>
                    var t := h.installed.value.current;
                    h.service == Some(h.unitsOf(t).service) && h.timer == Some(h.unitsOf(t).timer))
  {
    enabled, active := false, false;
    var checked := h.Check();
    if checked == Crashed { return Some(Died), enabled, active; }
    if checked == Raised { return Some(Refused(Refusal.Preflight)), enabled, active; }
    var refusal := Admission(h.installed, h.current, h.intent, target, rollback);
    if refusal == Some(ForeignCurrent) { return Some(Refused(ForeignCurrent)), enabled, active; }
    var inspected;
    inspected, enabled, active := h.Inspect(if h.installed.Some? then Some(h.installed.value.current) else None);
    if inspected == Crashed { return Some(Died), enabled, active; }
    if inspected == Raised { return Some(Refused(Refusal.Preflight)), enabled, active; }
    refused := if refusal.Some? then Some(Refused(refusal.value)) else None;
  }

  /** Stage the release of `target`: its directory must not exist yet, and stays whatever happens. */
  method StageRelease(h: Host, target: Target) returns (s: Status, alreadyStaged: bool)
    modifies h`releases
    ensures alreadyStaged == (target in old(h.releases))
    ensures alreadyStaged ==> s == Raised && h.releases == old(h.releases)
    ensures h.releases == old(h.releases) || h.releases == old(h.releases) + {target}
    ensures s == Done ==> h.releases == old(h.releases) + {target}
  {
    alreadyStaged := target in h.releases;
    if alreadyStaged {
      return Raised, true;
    }
    var landed;
    landed, s := h.Outcome();
    if landed { h.releases := h.releases + {target}; }
  }

  /** Issue the remote command. An initialisation is only ever issued behind a durable intent that
      says so and names the staged candidate. */
  method RunRemote(h: Host, target: Target, init: bool) returns (s: Status)
    requires init ==>
               h.intent.Some? && h.intent.value.initializationAttempted && h.intent.value.candidate == Some(target)
    modifies h`inits
    ensures h.inits == if init then old(h.inits) + [target] else old(h.inits)
  {
    if init {
      h.inits := h.inits + [target];
    }
    s := *;
  }

  /** Record the intent, stage or take up the candidate, and run the remote command. The system
      itself is not touched. */
  method Prepare(h: Host, replaced: Option<Target>, target: Target, rollback: bool)
    returns (s: Status, record: Target, intent: Intent, alreadyStaged: bool)
    requires InitLedger(h)
    modifies h`intent, h`releases, h`inits
    ensures InitLedger(h) && old(h.releases) <= h.releases
    ensures alreadyStaged ==> s == Raised
    ensures h.inits == old(h.inits) || (h.inits == old(h.inits) + [target] && target !in old(h.releases))
    ensures h.inits != old(h.inits) ==> replaced.None? && !rollback && !old(Resumes(h.intent, replaced, target))
    ensures h.inits != old(h.inits) || old(Resumes(h.intent, replaced, target)) ==> Resumes(h.intent, replaced, target)
    ensures s == Done ==>
              && h.intent == Some(intent) && intent.newTarget == target && intent.oldTarget == replaced
              && intent.candidate == Some(target) && record == target
  {
    record := target;
    var prior := h.intent;
    var resumed := Resumes(prior, replaced, target);
    alreadyStaged := false;
    intent := Intent(replaced, target, Prepared, resumed && prior.value.initializationAttempted,
                     if resumed then prior.value.candidate else None);
    :- h.SaveIntent(intent);
    :- h.Check();
    if !rollback {
      if resumed {
        record := intent.candidate.value;
      } else {
        s, alreadyStaged := StageRelease(h, target);
        if s != Done {
          return;
        }
      }
    }
    :- h.Check();
    var init := replaced.None? && !resumed && !rollback;
    intent := intent.(candidate := Some(record),
                      initializationAttempted := intent.initializationAttempted || init,
                      phase := if init then InitPending else CheckPending);
    :- h.SaveIntent(intent);
    :- RunRemote(h, target, init);
    intent := intent.(phase := RemoteVerified);
    :- h.SaveIntent(intent);
    s := h.Check();
  }

  /** The activation and, if it fails, its compensation. */
  method CarryOut(h: Host, before: Option<Installation>, target: Target, record: Target, intent: Intent,
                  wasEnabled: bool, wasActive: bool, rollback: bool)
    returns (o: Outcome)
    requires h.installed == before && record == target
    requires before.None? ==>
              h.current.None? && h.service.None? && h.timer.None? && !h.loaded && wasEnabled && wasActive
    requires before.Some? ==>
               var t := before.value.current;
               && h.current == Some(t) && h.service == Some(h.unitsOf(t).service) && h.timer == Some(h.unitsOf(t).timer)
               && wasEnabled == h.enabled && wasActive == h.active
    modifies h`current, h`next, h`service, h`timer, h`loaded, h`enabled, h`active, h`installed, h`intent
    ensures !o.Refused? && (h.intent == old(h.intent) || h.intent == Some(intent.(phase := Complete)))
    ensures o in {Deployed, RolledBack, ActivationFailed} ==> h.intent == Some(intent.(phase := Complete))
    ensures o == ActivationFailed && before.Some? ==> h.Seen() == old(h.Seen())
    ensures o == ActivationFailed && before.None? ==>
              && h.Seen() == old(h.Seen()).(enabled := h.enabled, active := false)
              && (h.enabled ==> old(h.enabled))
    ensures o == Deployed || o == RolledBack ==>
              && (o == RolledBack) == rollback
              && var replaced := if before.Some? then Some(before.value.current) else None;
                 h.Seen() == System(Some(target), Some(h.unitsOf(target).service), Some(h.unitsOf(target).timer),
                                    wasEnabled, wasActive, Some(Installation(target, replaced)))
  {
    var replaced := if before.Some? then Some(before.value.current) else None;
    var activated := Activate(h, replaced, target, record, intent, wasEnabled, wasActive);
    if activated == Crashed { return Died; }
    if activated == Done { return if rollback then RolledBack else Deployed; }
    var compensated := Compensate(h, before, target, record, intent, wasEnabled, wasActive);
    if compensated == Crashed { return Died; }
    o := if compensated == Done then ActivationFailed else RollbackIncomplete;
  }

  /** `deploy`. */
  method Deploy(h: Host, target: Target, rollback: bool) returns (o: Outcome)
    requires InitLedger(h)
    modifies h
    // Compensation: a failed activation leaves the system as it was, except that after a first install
    // a timer that had been enabled or active without a unit is inactive and may be disabled.
    ensures o == ActivationFailed && (old(h.installed).Some? || (!old(h.enabled) && !old(h.active))) ==>
              h.Seen() == old(h.Seen())
    ensures o == ActivationFailed && old(h.installed).None? ==>
              && h.Seen() == old(h.Seen()).(enabled := h.enabled, active := false)
              && (h.enabled ==> old(h.enabled))
    // A refusal never touches the system.
    ensures o.Refused? ==> h.Seen() == old(h.Seen())
    // Success: everything is the target's, and an existing timer keeps its state.
    ensures o == Deployed || o == RolledBack ==>
              var replaced := if old(h.installed).Some? then Some(old(h.installed).value.current) else None;
              h.Seen() == System(Some(target), Some(h.unitsOf(target).service), Some(h.unitsOf(target).timer),
                                 replaced.None? || old(h.enabled), replaced.None? || old(h.active),
                                 Some(Installation(target, replaced)))
    ensures o == RolledBack ==> rollback && old(h.installed).Some? && old(h.installed).value.previous == Some(target)
    ensures o == Deployed ==> !rollback
    // Whoever gets an answer other than a refusal finds a finished intent, unless the handler failed.
    ensures o in {Deployed, RolledBack, ActivationFailed} ==> h.intent.Some? && h.intent.value.phase == Complete
    // Remote initialisation: at most one, only for a target never staged before.
    ensures InitLedger(h) && old(h.releases) <= h.releases
    ensures h.inits == old(h.inits) || (h.inits == old(h.inits) + [target] && target !in old(h.releases))
    ensures h.inits != old(h.inits) ==> old(h.installed).None? && !rollback
    // It is durably recorded, and what is recorded survives every later attempt on the target.
    ensures var replaced := if old(h.installed).Some? then Some(old(h.installed).value.current) else None;
            h.inits != old(h.inits) || old(Resumes(h.intent, replaced, target)) ==> Resumes(h.intent, replaced, target)
  {
    var before := h.installed;
    var replaced := if before.Some? then Some(before.value.current) else None;
    var refused, enabled, active := Preflight(h, target, rollback);
    if refused.Some? { return refused.value; }
    var wasEnabled, wasActive := replaced.None? || enabled, replaced.None? || active;
    var prepared, record, intent, alreadyStaged := Prepare(h, replaced, target, rollback);
    if prepared == Crashed { return Died; }
    if prepared == Raised { return Refused(if alreadyStaged then ReleaseExists else Refusal.Preflight); }
    o := CarryOut(h, before, target, record, intent, wasEnabled, wasActive, rollback);
  }

  /** Any sequence of deployments, rollbacks, failures and crashes on a host that starts empty issues
      the remote initialisation at most once for each target, ever. */
  method DeployAll(unitsOf: Target -> Units, requests: seq<(Target, bool)>) returns (h: Host, outcomes: seq<Outcome>)
    ensures fresh(h) && InitLedger(h) && Distinct(h.inits)
    ensures |outcomes| == |requests|
  {
    h := new Host(unitsOf);
    outcomes := [];
    for i := 0 to |requests|
      invariant fresh(h) && InitLedger(h) && |outcomes| == i
    {
      var o := Deploy(h, requests[i].0, requests[i].1);
      outcomes := outcomes + [o];
    }
  }

  // ---- A timer that was there before the first install ----

  /** A first install over an active timer that has no unit is never taken back completely. */
  method ActiveTimerLost(unitsOf: Target -> Units, target: Target) returns (h: Host, o: Outcome)
    ensures fresh(h) && (o == ActivationFailed ==> h.Seen() == System(None, None, None, false, false, None))
    ensures o == ActivationFailed ==> h.Seen() != System(None, None, None, false, true, None)
  {
    h := new Host(unitsOf);
    h.active := true;
    o := Deploy(h, target, false);
  }

  /** Over an enabled one, it is taken back if the failure came before the unit file was there, and not
      if systemd had loaded it. */
  method EnabledTimerKept(h: Host, target: Target, intent: Intent) returns (s: Status)
    requires h.installed.None? && h.enabled && !h.active
    modifies h`current, h`next, h`service, h`timer, h`loaded, h`enabled, h`active, h`installed, h`intent
    ensures s == Done && old(h.timer).None? ==> h.Seen() == System(None, None, None, true, false, None)
    ensures s == Done && old(h.loaded) ==> h.Seen() == System(None, None, None, false, false, None)
  {
    s := Compensate(h, None, target, target, intent, true, true);
  }
}
