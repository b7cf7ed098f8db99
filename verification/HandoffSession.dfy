/**
 Whole runs of the handoff: a prepare that fails is followed by a handler that restarts the labels;
 one that gets through is followed by the deployment and the restore.
 */
module HandoffSession {
  import opened Basics
  import opened StopOrder
  import opened HandoffRecords
  import opened HandoffStore
  import opened HandoffChain
  import opened HandoffHost
  import opened HandoffProtocol

  // ---- The failure handlers ----

  lemma RestartAllowed(x: Handoff)
    requires x.Interrupted() && x.listed
    ensures x.restarted <= x.host.loaded
    ensures x.MayRestart() ==> x.Allowed(Restarting)
  {
    var p, all := x.Payload(Restarting, 0), SetOf(x.host.labels);
    if !x.Active() && p.WellFormed() {
      FirstRecordExact(x.host.State(), p, all);
    }
  }

  /** `_restart_loaded_labels` as the handlers call it. As long as it has loaded no label, the active
      record has been rewritten at most, and then the invariant holds if and only if it may restart. */
  method RestartListed(x: Handoff) returns (s: Status, errors: nat)
    requires x.listed ==> x.restarted <= x.host.loaded
    modifies x.host, x`restarted
    ensures s == Done || s == Crashed
    ensures x.host.intent == old(x.host.intent) && old(x.host.loaded) <= x.host.loaded
    ensures !x.listed ==> x.host.State() == old(x.host.State())
    ensures old(x.Interrupted() && x.MayRestart()) ==> x.host.Valid() && (x.listed ==> x.Allowed(Restarting))
    ensures old(x.Interrupted()) && x.host.loaded == old(x.host.loaded) && x.host.stable != old(x.host.stable) ==>
              (Inv(x.host.State(), SetOf(x.host.labels)) <==> old(x.MayRestart()))
    ensures s == Done && errors == 0 && x.listed ==>
              SetOf(x.host.labels) <= x.restarted && SetOf(x.host.labels) <= x.host.loaded
  {
    errors := 0;
    if !x.listed {
      return Done, 0;
    }
    if x.Interrupted() {
      RestartAllowed(x);
    }
    ghost var before, p, all := x.host.State(), x.Payload(Restarting, 0), SetOf(x.host.labels);
    ghost var exact := x.Interrupted() && !x.MayRestart();
    s, errors := x.RestartLabels();
    if exact && x.host.loaded == before.loaded && x.host.stable != before.stable {
      RewrittenExact(before, x.host.State(), p, all);
    }
  }

  method RestoreUncommitted(x: Handoff) returns (s: Status)
    requires x.listed ==> x.restarted <= x.host.loaded
    modifies x.host, x`restarted
    ensures old(x.Interrupted() && x.MayRestart()) ==> x.host.Valid()
    ensures s == Done && x.listed ==> SetOf(x.host.labels) <= x.host.loaded
    ensures !x.listed ==> x.host.State() == old(x.host.State())
  {
    var errors;
    s, errors := RestartListed(x);
    if s == Done && errors > 0 {
      s := Failed;
    }
  }

  /** Whoever may publish a "restarting" record of its operation may publish an "aborted" one. */
  method RecordAborted(x: Handoff) returns (s: Status)
    modifies x.host
    ensures x.host.loaded == old(x.host.loaded)
    ensures old(x.host.Valid() && x.Allowed(Restarting)) ==> x.host.Valid()
  {
    s := x.RecordStage(Aborted);
  }

  /** `abort_prepared`: only under the prepared intent of this handoff; the previous generation must be
      the one that comes up. */
  method AbortPrepared(x: Handoff, readiness: Option<Generation>) returns (s: Status)
    requires x.action == Deploy && (x.listed ==> x.restarted <= x.host.loaded)
    modifies x.host, x`restarted
    ensures old(x.Interrupted() && x.MayRestart()) ==> x.host.Valid()
    ensures s == Done && x.listed ==>
              && SetOf(x.host.labels) <= x.host.loaded
              && readiness.Some? && old(x.host.intent).Some?
              && readiness.value.code == old(x.host.intent).value.previous
  {
    if x.host.intent.None? {
      return Failed;
    }
    var i := x.host.intent.value;
    if !i.prepared || i.Semantic() != IntentPlanned || i.handoff != x.op || i.target != x.target {
      return Failed;
    }
    var errors;
    s, errors := RestartListed(x);
    if s != Done || !x.listed {
      return;
    }
    if errors > 0 || readiness.None? || readiness.value.code != i.previous {
      return Failed;
    }
    s := RecordAborted(x);
  }

  /** What the bootstrap does with a handoff whose prepare did not get through. */
  method HandleFailure(x: Handoff, readiness: Option<Generation>) returns (s: Status)
    requires x.listed ==> x.restarted <= x.host.loaded
    modifies x.host, x`restarted
    ensures old(x.Interrupted() && x.MayRestart()) ==> x.host.Valid()
    ensures s == Done && x.listed ==> SetOf(x.host.labels) <= x.host.loaded
    ensures !x.listed && x.action != Deploy ==> x.host.State() == old(x.host.State())
  {
    if x.action == Deploy && x.bound {
      s := AbortPrepared(x, readiness);
    } else {
      s := RestoreUncommitted(x);
    }
  }

  // ---- Two states in which the handler breaks the invariant ----

  /** Deployment 1 has stopped the scheduler when its process dies. */
  function HalfStopped(): Store {
    var r := Record(1, Stage.Stopping, DAEMONS, {SCHEDULER}, {}, "new", Deploy, None, None, 0);
    Store(Some(r), map[1 := r], map[], map[(1, SCHEDULER) := BootoutIntent(1, SCHEDULER)],
          Some(Intent(1, 1, "old", "new", true, [Entered(IntentPlanned)])), {WORKER, FINALIZER})
  }

  /** What a rollback of it publishes when it cannot ask launchd which labels are loaded: it knows the
      labels, but not yet that one of them is stopped. */
  function Forgetful(): Record {
    Record(2, Restarting, DAEMONS, {}, {}, "old", Rollback, Some(1), None, 1)
  }

  /** The scheduler is then unloaded without a record or a bootout intent of the active operation, and a
      stop loop that takes this operation up finds its evidence missing. */
  lemma HandlerForgetsStoppedLabel()
    ensures var s, p := HalfStopped(), Forgetful();
            && Inv(s, DAEMONS) && NotActive(s, p, DAEMONS) && p.WellFormed() && !MayPublish(s, p)
            && !Inv(WithRecord(s, p), DAEMONS)
            && SCHEDULER !in s.loaded && SCHEDULER !in p.stopped && (p.op, SCHEDULER) !in s.bootouts
  {
    var s, p := HalfStopped(), Forgetful();
    HalfStoppedInv();
    FirstRecordExact(s, p, DAEMONS);
  }

  lemma HalfStoppedInv()
    ensures var s := HalfStopped();
            Inv(s, DAEMONS) && s.intent.value.Chain() == [1] && Linked(s, s.intent.value, s.stable.value)
  {
    var s := HalfStopped();
    var i := s.intent.value;
    ReboundsStep([], Entered(IntentPlanned));
    assert [] + [Entered(IntentPlanned)] == i.history;
    assert i.Chain() == [1];
    assert ChainAlong(s, s.stable.value, i.Chain(), i);
  }

  /** Deployment 1 is prepared and nothing else has happened. */
  function PreparedStore(): Store {
    var i := Intent(1, 1, "old", "new", true, [Entered(IntentPlanned)]);
    Store(None, map[], map[], map[], Some(i), DAEMONS)
  }

  /** What a deployment of another commit publishes after its intent was refused. */
  function Stray(): Record {
    Record(2, Restarting, DAEMONS, {}, {SCHEDULER}, "other", Deploy, None, None, 1)
  }

  /** The active record is then of an operation that no intent names, and no recovery that has to validate
      it finds an acceptable chain. */
  lemma HandlerPublishesStrayRecord()
    ensures var s, p := PreparedStore(), Stray();
            && Inv(s, DAEMONS) && NotActive(s, p, DAEMONS) && p.WellFormed() && !MayPublish(s, p)
            && !InStep(WithRecord(s, p))
            && !Acceptable(WithRecord(s, p).operations, s.proofs, p, s.intent.value)
  {
    FirstRecordExact(PreparedStore(), Stray(), DAEMONS);
  }

  /** Deployment 1 is proven; the process died before its release was committed. */
  function ProvenStore(): Store {
    var r := Record(1, Completed, DAEMONS, DAEMONS, DAEMONS, "new", Deploy, None, Some(Generation("g", "e", "new")), 0);
    Store(Some(r), map[1 := r], map[1 := r], AllBootedOut(1),
          Some(Intent(1, 1, "old", "new", false, [Entered(IntentPlanned), Entered(AwaitingReadiness)])), DAEMONS)
  }

  lemma ProvenStoreInv()
    ensures Inv(ProvenStore(), DAEMONS)
  {
    var s := ProvenStore();
    var i := s.intent.value;
    var start := [Entered(IntentPlanned)];
    ReboundsStep([], Entered(IntentPlanned));
    assert [] + [Entered(IntentPlanned)] == start;
    ReboundsStep(start, Entered(AwaitingReadiness));
    assert start + [Entered(AwaitingReadiness)] == i.history;
    assert i.Chain() == [1];
    assert ChainAlong(s, s.stable.value, i.Chain(), i);
  }

  /** A deployment of a further commit lists the loaded labels before it finds the release unfinished. Its
      handler then buries the proven record, and the unfinished release cannot be recovered any more. */
  lemma HandlerBuriesProvenRecord()
    ensures var s, p := ProvenStore(), Stray();
            && Inv(s, DAEMONS) && NotActive(s, p, DAEMONS) && p.WellFormed() && !MayPublish(s, p)
            && !Inv(WithRecord(s, p), DAEMONS)
            && !Acceptable(WithRecord(s, p).operations, s.proofs, p, s.intent.value)
            && s.intent.value.Semantic() == AwaitingReadiness && s.stable.value.op in s.proofs
  {
    ProvenStoreInv();
    FirstRecordExact(ProvenStore(), Stray(), DAEMONS);
  }

  // ---- Two states that a later run cannot get past ----

  /** Deployment 1 had stopped every label, failed and restarted them, when the check of the previous
      generation failed. */
  function RestartedStore(): Store {
    var r := Record(1, Restarting, DAEMONS, DAEMONS, DAEMONS, "new", Deploy, None, None, 0);
    Store(Some(r), map[1 := r], map[], AllBootedOut(1),
          Some(Intent(1, 1, "old", "new", true, [Entered(IntentPlanned)])), DAEMONS)
  }

  lemma RestartedStoreInv()
    ensures Inv(RestartedStore(), DAEMONS)
  {
    var s := RestartedStore();
    var i := s.intent.value;
    ReboundsStep([], Entered(IntentPlanned));
    assert [] + [Entered(IntentPlanned)] == i.history;
    assert ChainAlong(s, s.stable.value, i.Chain(), i);
  }

  /** A stop loop that takes this record up does not get through, however often it is tried. */
  method StopAgain(host: Host) returns (s: Status)
    requires host.labels == [SCHEDULER, WORKER, FINALIZER] && host.State() == RestartedStore()
    modifies host
    ensures s != Done && host.Valid() && host.loaded <= DAEMONS
  {
    RestartedStoreInv();
    assert SetOf(host.labels) == DAEMONS;
    var x := new Handoff(host, "new", Deploy, None);
    x.op, x.stopped, x.restarted := 1, DAEMONS, DAEMONS;
    assert !Resumable(host.labels, x.Seen()) by {
      assert WORKER in x.restarted && SCHEDULER in x.restarted && WORKER != SCHEDULER;
    }
    s := x.StopLoop();
  }

  /** The handler of deployment 1 died between its operation record and its active record. */
  function TornStore(): Store {
    var s := HalfStopped();
    WithOperation(s, s.stable.value.(stage := Restarting, updatedAt := 1))
  }

  lemma TornStoreInv()
    ensures Inv(TornStore(), DAEMONS)
  {
    HalfStoppedInv();
    OperationPublished(HalfStopped(), HalfStopped().stable.value.(stage := Restarting, updatedAt := 1), DAEMONS);
  }

  /** It can be neither resumed nor rolled back, however often it is tried. */
  method RecoverTorn(host: Host, recovery: Action, attempts: nat) returns (refusals: nat)
    requires host.labels == [SCHEDULER, WORKER, FINALIZER] && host.State() == TornStore() && recovery != Deploy
    modifies host
    ensures host.Valid() && host.State() == TornStore() && refusals == attempts
  {
    TornStoreInv();
    assert SetOf(host.labels) == DAEMONS;
    var target := host.intent.value.TargetOf(recovery);
    assert host.intent.value.Semantic() == IntentPlanned;
    refusals := RetryTorn(host, target, recovery, false, attempts);
  }

  // ---- Whole runs ----

  /** How the deployer ends that runs behind a prepared handoff. */
  datatype Ending = Succeeds | Exits | Raises

  /** One invocation of the bootstrap. `committed` and `readiness` are what it observes; `advances` is
      how far the deployer takes the intent; a `formal` rollback follows a failed deployment. */
  datatype Request = Request(action: Action, target: Sha, previous: Sha, committed: bool, formal: bool,
                             readiness: Option<Generation>, advances: nat, deployer: Ending)
  {
    predicate Formal() {
      formal && action == Rollback
    }

    /** A formal rollback is given the operation it supersedes. */
    function PlanOn(s: Store): Plan {
      var given := if Formal() && s.stable.Some? then Some(s.stable.value.op) else None;
      Plan(action, target, previous, given, committed)
    }

    /** Where this invocation can fork the chain or be followed by an unsafe restart. A resume never
        forks, for a completed handoff is finalised before; behind a formal rollback nothing restarts. */
    predicate Endangers(s: Store, labels: set<Label>) {
      || (action == Rollback && Forks(s, PlanOn(s)))
      || (!Formal() && (BeginsAfresh(s, labels, PlanOn(s)) || SupersedesUnloaded(s, labels, PlanOn(s))))
    }

    /** Where this invocation is refused for a torn record. */
    predicate Stalls(s: Store) {
      Refuses(s, PlanOn(s)) && (action == Resume ==> s.stable.value.op !in s.proofs)
    }
  }

  /** Adopt the intent, or enter a further stage. */
  method AdvanceIntent(host: Host) returns (s: Status)
    requires host.Valid() && host.stable.Some? && host.intent.Some?
    requires Linked(host.State(), host.intent.value, host.stable.value)
    requires host.intent.value.Semantic() != IntentCompleted
    modifies host
    ensures host.Valid() && host.State() == old(host.State()).(intent := host.intent) && host.intent.Some?
    ensures Linked(host.State(), host.intent.value, host.stable.value)
    ensures host.intent.value.handoff == old(host.intent).value.handoff
    ensures host.intent.value.Semantic() != IntentCompleted
    ensures s == Done || Broken(s)
  {
    var i := host.intent.value;
    var stage: IntentStage := *;
    if stage == IntentCompleted {
      return Done;
    }
    var j := i.(prepared := false, history := i.history + [Entered(stage)]);
    IntentAdvanced(host.State(), j, SetOf(host.labels));
    AdvancesKeepsChain(i, j);
    s := host.WriteIntent(j);
  }

  /** Every label is up, and a handoff that had stopped them all is proven and its intent completed. */
  ghost predicate Finished(x: Handoff)
    reads x, x.host
  {
    && x.host.loaded == SetOf(x.host.labels)
    && (x.stopped == SetOf(x.host.labels) ==>
          && x.op in x.host.proofs && x.host.stable == Some(x.host.proofs[x.op])
          && x.host.intent.Some? && x.host.intent.value.Semantic() == IntentCompleted)
  }

  /** Restart, proof, and the completed intent behind the proof. */
  method RestoreAndFinish(x: Handoff, readiness: Option<Generation>) returns (s: Status)
    requires x.host.Valid() && x.Active() && x.Synced() && x.Named() && !x.host.intent.value.prepared
    modifies x.host, x`restarted
    ensures x.host.Valid() && (s == Done ==> Finished(x))
  {
    s := x.Restore(readiness);
    if s != Done || x.op !in x.host.proofs {
      return;
    }
    var i := x.host.intent.value;
    assert x.host.stable == Some(x.host.proofs[x.op]);
    IntentFinished(x.host.State(), SetOf(x.host.labels));
    s := x.host.WriteIntent(i.(history := i.history + [Entered(IntentCompleted)]));
  }

  /** The deployer takes the intent further. */
  method TakeFurther(x: Handoff, advances: nat) returns (s: Status)
    requires x.host.Valid() && x.Active() && x.Synced() && x.Named()
    modifies x.host
    ensures x.host.Valid() && x.Active() && x.Synced() && x.Named() && (s == Done || Broken(s))
  {
    for n := 0 to advances
      invariant x.host.Valid() && x.Active() && x.Synced() && x.Named()
    {
      s := AdvanceIntent(x.host);
      if s != Done {
        return;
      }
    }
    s := Done;
  }

  /** The deployment behind a prepared handoff. If the deployer raises, the failure handler runs; if it
      exits with an error, the invocation is over; otherwise the labels are restored. */
  method RollOut(x: Handoff, r: Request) returns (s: Status)
    requires x.host.Valid() && x.Active() && x.Synced() && x.Named() && x.listed
    modifies x.host, x`restarted
    ensures x.host.Valid() && (s == Done ==> Finished(x))
  {
    s := TakeFurther(x, r.advances);
    if s == Crashed {
      return;
    }
    if s == Done && r.deployer == Succeeds && !x.host.intent.value.prepared {
      s := RestoreAndFinish(x, r.readiness);
      return;
    }
    if (s != Done || r.deployer == Raises) && !r.Formal() {
      RestartAllowed(x);
      var handled := HandleFailure(x, r.readiness);
    }
    s := Failed;
  }

  method Finalise(host: Host) returns (s: Status)
    requires host.Valid() && host.stable.Some? && host.intent.Some? && !host.intent.value.prepared
    requires host.stable.value.op in host.proofs && host.stable.value.stage == Completed
    modifies host
    ensures host.Valid() && host.State() == old(host.State()).(intent := host.intent)
    ensures (s == Done || Broken(s)) && host.loaded == SetOf(host.labels)
    ensures s == Done ==> host.intent.Some? && host.intent.value.Semantic() == IntentCompleted
  {
    var i := host.intent.value;
    LinkedWhenProven(host.State(), SetOf(host.labels));
    IntentFinished(host.State(), SetOf(host.labels));
    assert host.stable.value.restarted == SetOf(host.labels);
    s := host.WriteIntent(i.(history := i.history + [Entered(IntentCompleted)]));
  }

  /** Before a resume: convergence, and a completed handoff that is not committed yet is finalised. */
  method FinishPending(host: Host, committed: bool) returns (s: Status, finished: bool)
    requires host.Valid()
    modifies host
    ensures host.Valid() && host.loaded == old(host.loaded)
    ensures finished ==> s == Done && host.loaded == SetOf(host.labels)
    ensures old(host.stable).Some? && old(host.stable).value.op !in old(host.proofs) ==>
              s == Done && !finished && host.State() == old(host.State())
    ensures s == Done && !finished && !committed ==> !host.State().Repeats(Resume)
    ensures s == Done && host.stable.Some? && host.stable.value.op !in host.proofs ==>
              host.State() == old(host.State())
    ensures s != Refused(EvidenceMissing) && s != Refused(BootoutChanged) && s != Refused(ChainInvalid)
  {
    finished := false;
    var converged :- host.Converge();
    if host.stable.None? || host.PreparedOnly() {
      return Done, false;
    }
    var incomplete :- host.AwaitsRecovery(host.stable.value, committed);
    if !incomplete || host.stable.value.stage != Completed {
      return Done, false;
    }
    s := Finalise(host);
    finished := s == Done;
  }

  /** A handoff of the request, prepared. */
  method Begin(host: Host, r: Request) returns (x: Handoff, s: Status, forked: bool)
    requires host.Valid()
    modifies host
    ensures fresh(x) && x.host == host && x.action == r.action && (x.listed ==> x.restarted <= host.loaded)
    ensures if forked then old(Forks(host.State(), r.PlanOn(host.State()))) else x.Interrupted()
    ensures !forked && !x.MayRestart() ==>
              old(AtRisk(host.State(), SetOf(host.labels), r.PlanOn(host.State())))
    ensures s == Done ==> !forked && x.Active() && x.Synced() && x.Named() && x.listed
    ensures old(Refuses(host.State(), r.PlanOn(host.State()))) ==>
              s == Refused(OperationChanged) && host.State() == old(host.State()) && !x.listed
    ensures s != Refused(EvidenceMissing) && s != Refused(BootoutChanged) && s != Refused(ChainInvalid)
  {
    var token := DrawToken(host);
    var plan := r.PlanOn(host.State());
    x := new Handoff(host, plan.target, plan.action, plan.given);
    s, forked := x.Prepare(token, plan.previous, plan.committed);
    if !forked && x.listed {
      RestartAllowed(x);
    }
  }

  /** Prepare, and what follows it. */
  method Carry(host: Host, r: Request) returns (prepared: Status, s: Status, hazard: bool)
    requires host.Valid()
    modifies host
    ensures !hazard ==> host.Valid()
    ensures hazard ==>
              || old(Forks(host.State(), r.PlanOn(host.State())))
              || (!r.Formal() && old(AtRisk(host.State(), SetOf(host.labels), r.PlanOn(host.State()))))
    ensures prepared == Done ==> !hazard
    ensures prepared == Done && s == Done ==> host.loaded == SetOf(host.labels)
    ensures old(Refuses(host.State(), r.PlanOn(host.State()))) ==>
              prepared == Refused(OperationChanged) && !hazard && host.State() == old(host.State())
    ensures prepared != Refused(EvidenceMissing) && prepared != Refused(BootoutChanged)
    ensures prepared != Refused(ChainInvalid)
  {
    var x;
    x, prepared, hazard := Begin(host, r);
    s := prepared;
    if prepared == Done {
      s := RollOut(x, r);
    } else if prepared != Crashed && !r.Formal() {
      hazard := hazard || !x.MayRestart();
      var handled := HandleFailure(x, r.readiness);
    }
  }

  /** One invocation. The invariant survives it, whatever fails and wherever the process dies, unless
      the prepare forked the chain or a failure handler restarted where it may not, and both can happen
      only in a store that this request endangers. */
  method Session(host: Host, r: Request) returns (prepared: Status, s: Status, hazard: bool)
    requires host.Valid()
    modifies host
    ensures if hazard then old(r.Endangers(host.State(), SetOf(host.labels))) else host.Valid()
    ensures prepared == Done ==> !hazard
    ensures prepared == Done && s == Done ==> host.loaded == SetOf(host.labels)
    ensures old(r.Stalls(host.State())) ==>
              prepared == Refused(OperationChanged) && !hazard && host.State() == old(host.State())
    ensures prepared != Refused(EvidenceMissing) && prepared != Refused(BootoutChanged)
    ensures prepared != Refused(ChainInvalid)
  {
    if r.action == Resume {
      var finished;
      s, finished := FinishPending(host, r.committed);
      prepared, hazard := s, false;
      if s != Done || finished {
        return;
      }
    }
    prepared, s, hazard := Carry(host, r);
  }

  /** One invocation of a history: the invariant held before it, and a torn record changes nothing. */
  ghost predicate Step(before: Store, r: Request, after: Store, labels: set<Label>) {
    Inv(before, labels) && (r.Stalls(before) ==> after == before)
  }

  /** Any history of deployments, recoveries, failures and crashes: the invariant holds before each
      invocation, up to the first fork or unsafe restart, which the store before it had been open to. An
      invocation that finds a torn record changes nothing. `run` are the stores between invocations. */
  method Sessions(host: Host, requests: seq<Request>) returns (done: nat, hazard: bool, ghost run: seq<Store>)
    requires host.Valid()
    modifies host
    ensures done <= |requests| && |run| == done + 1
    ensures run[0] == old(host.State()) && run[done] == host.State()
    ensures forall k :: 0 <= k < done ==> Step(run[k], requests[k], run[k + 1], SetOf(host.labels))
    ensures !hazard ==> done == |requests| && host.Valid()
    ensures hazard ==> done > 0 && requests[done - 1].Endangers(run[done - 1], SetOf(host.labels))
  {
    done, hazard, run := 0, false, [host.State()];
    while done < |requests| && !hazard
      invariant done <= |requests| && |run| == done + 1
      invariant run[0] == old(host.State()) && run[done] == host.State()
      invariant forall k :: 0 <= k < done ==> Step(run[k], requests[k], run[k + 1], SetOf(host.labels))
      invariant !hazard ==> host.Valid()
      invariant hazard ==> done > 0 && requests[done - 1].Endangers(run[done - 1], SetOf(host.labels))
    {
      var prepared, s;
      prepared, s, hazard := Session(host, requests[done]);
      assert Step(run[done], requests[done], host.State(), SetOf(host.labels));
      done, run := done + 1, run + [host.State()];
    }
  }

  // ---- The danger is real ----

  /** The record that a failure handler publishes for operation `token` when it has not learnt anything
      about stopped labels, up to the labels it has found loaded meanwhile. */
  function FirstRestart(s: Store, labels: set<Label>, plan: Plan, token: OperationId): Record {
    var superseded := if plan.action != Deploy && s.stable.Some? then Some(s.stable.value.op) else None;
    Record(token, Restarting, labels, {}, {}, plan.target, plan.action, superseded, None, 0)
  }

  /** In every endangered store, once what was pending has been converged and rebound, this record is one
      the handler may come to publish, and whichever of its variants becomes the active record, the
      invariant is broken until a label is loaded. */
  lemma DangerIsReal(s: Store, labels: set<Label>, plan: Plan, token: OperationId)
    requires Inv(s, labels) && labels != {}
    requires BeginsAfresh(s, labels, plan) || SupersedesUnloaded(s, labels, plan)
    requires token !in s.operations && token !in s.proofs && forall l :: (token, l) !in s.bootouts
    requires s.intent.Some? ==> token !in s.intent.value.Chain() && token != s.intent.value.handoff
    requires s.stable.Some? && s.stable.value.op in s.proofs ==> s.stable.value.stage == Completed
    requires s.stable.Some? && s.stable.value.op !in s.proofs ==> s.intent.value.handoff == s.stable.value.op
    ensures var p := FirstRestart(s, labels, plan, token);
            && p.WellFormed() && NotActive(s, p, labels) && !MayPublish(s, p)
            && forall t :: Rewritten(s, t, p) && t.stable != s.stable ==> !Inv(t, labels)
  {
    var p := FirstRestart(s, labels, plan, token);
    if plan.action != Deploy {
      assert exists l :: l in labels && l !in s.loaded;
    }
    forall t | Rewritten(s, t, p) && t.stable != s.stable
      ensures !Inv(t, labels)
    {
      RewrittenExact(s, t, p, labels);
    }
  }

  /** In particular the first record of a deployment, which finds its first label loaded. */
  lemma FirstLabelFound(s: Store, labels: set<Label>, plan: Plan, token: OperationId, l: Label, now: int)
    requires Inv(s, labels) && l in labels && BeginsAfresh(s, labels, plan)
    requires token !in s.operations && token !in s.proofs && forall l :: (token, l) !in s.bootouts
    requires s.intent.Some? ==> token !in s.intent.value.Chain() && token != s.intent.value.handoff
    requires s.stable.Some? ==> s.stable.value.stage == Completed
    ensures !Inv(WithRecord(s, FirstRestart(s, labels, plan, token).(restarted := {l}, updatedAt := now)), labels)
  {
    var p := FirstRestart(s, labels, plan, token);
    var x := p.(restarted := {l}, updatedAt := now);
    DangerIsReal(s, labels, plan, token);
    assert Rewritten(s, WithRecord(s, x), p);
  }
}
