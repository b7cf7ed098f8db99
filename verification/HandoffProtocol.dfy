/**
 The Lab launchd handoff (`_LabLaunchdHandoff`): daemons are unloaded one by one behind
 durable intents, restarted, and the handoff is completed; any step may fail, with or without
 having taken effect, and the process may die at any step.
 */
module HandoffProtocol {
  import opened Basics
  import opened HandoffRecords
  import opened HandoffStore
  import opened HandoffHost
  import opened StopOrder

  /** What one process holds in memory about the handoff it runs. */
  class Handoff {
    const host: Host
    var op: OperationId
    var stopped: set<Label>
    var restarted: set<Label>
    const target: Sha
    const action: Action
    var supersedes: Option<OperationId>
    var listed: bool      // the labels are known, so a failure restarts them
    var bound: bool       // the deployment intent has been prepared for this handoff

    constructor (host: Host, target: Sha, action: Action, supersedes: Option<OperationId>)
      ensures this.host == host && this.target == target && this.action == action
      ensures this.supersedes == supersedes && stopped == {} && restarted == {} && !listed && !bound
    {
      this.host, this.target, this.action, this.supersedes := host, target, action, supersedes;
      op, stopped, restarted, listed, bound := 0, {}, {}, false, false;
    }

    function Payload(stage: Stage, now: int): Record
      reads this
    {
      Record(op, stage, SetOf(host.labels), stopped, restarted, target, action, supersedes, None, now)
    }

    /** This process may publish records of its operation. */
    ghost predicate Owns(stage: Stage)
      reads this, host
    {
      && op !in host.proofs
      && EvidenceFor(host.State(), Payload(stage, 0))
      && (Continues(host.State(), Payload(stage, 0)) || StartsRoot(host.State(), Payload(stage, 0)) ||
          Succeeds(host.State(), Payload(stage, 0)))
    }

    /** The active record is of this process's operation. */
    predicate Active()
      reads this, host
    {
      && op !in host.proofs && stopped <= SetOf(host.labels)
      && EvidenceFor(host.State(), Payload(Stage.Stopping, 0))
      && Continues(host.State(), Payload(Stage.Stopping, 0))
    }

    ghost predicate Recorded(stage: Stage)
      reads this, host
    {
      && host.stable.Some?
      && host.stable.value == Payload(stage, host.stable.value.updatedAt)
      && op in host.operations && host.operations[op] == host.stable.value
    }

    /** `_record` for every stage but completion. It refuses exactly the illegal states, and keeps the
        invariant whether or not its two writes land if this process may publish the record. */
    method RecordStage(stage: Stage) returns (s: Status)
      requires stage != Completed
      modifies host
      ensures s == Done || Broken(s) || s == Refused(RecordInvalid)
      ensures s == Refused(RecordInvalid) <==> !Payload(stage, 0).WellFormed()
      ensures s == Refused(RecordInvalid) ==> host.State() == old(host.State())
      ensures exists now :: Publishes(old(host.State()), host.State(), Payload(stage, now))
      ensures s == Done ==> exists now :: host.State() == WithRecord(old(host.State()), Payload(stage, now))
      ensures old(host.Valid() && Allowed(stage)) ==> host.Valid() && Allowed(stage)
    {
      var now: int := *;
      var p := Payload(stage, now);
      assert Publishes(host.State(), host.State(), p);
      if !p.WellFormed() {
        return Refused(RecordInvalid);
      }
      ghost var before := host.State();
      s := host.WriteRecord(p);
      assert Publishes(before, host.State(), Payload(stage, now));
      assert s == Done ==> host.State() == WithRecord(before, Payload(stage, now));
      if old(host.Valid() && Allowed(stage)) {
        StagePublished(before, host.State(), Payload(stage, 0), now, SetOf(host.labels));
      }
    }

    ghost predicate Allowed(stage: Stage)
      reads this, host
    {
      Payload(stage, 0).WellFormed() ==> Owns(stage)
    }

    // ---- The stop loop ----

    /** In memory as on disk: only the stop loop has moved labels. */
    ghost predicate OnlyStopping()
      reads this, host
    {
      StopPhase(host.State()) && restarted == {} && stopped !! host.loaded
    }

    ghost function Seen(): View
      reads this, host
    {
      View(stopped, restarted, host.loaded)
    }

    /** `_verify_label_bootout_intent` with `create`. */
    method EnsureBootoutIntent(l: Label) returns (s: Status)
      requires host.Valid() && Active()
      modifies host
      ensures host.Valid() && Active() && (s == Done || Broken(s))
      ensures s == Done ==> (op, l) in host.bootouts
      ensures host.State() == old(host.State()).(bootouts := host.bootouts)
    {
      if (op, l) !in host.bootouts {
        BootoutIntended(host.State(), op, l, SetOf(host.labels));
        :- host.WriteBootoutIntent(op, l);
      }
      if host.bootouts[(op, l)] != BootoutIntent(op, l) {
        return Refused(BootoutChanged);
      }
      s := Done;
    }

    /** A record of the operation in hand, published while it is the active one. */
    method RecordActive(stage: Stage) returns (s: Status)
      requires host.Valid() && stage != Completed && Active()
      modifies host
      ensures host.Valid() && Active()
      ensures s == Done || Broken(s) || s == Refused(RecordInvalid)
      ensures s == Refused(RecordInvalid) <==> !Payload(stage, 0).WellFormed()
      ensures host.stable == old(host.stable) ||
              (&& host.stable.value.stage == stage
               && host.stable.value.stopped == stopped && host.stable.value.restarted == restarted)
      ensures s == Done ==>
                && host.stable.value == Payload(stage, host.stable.value.updatedAt)
                && host.operations == old(host.operations)[op := host.stable.value]
      ensures host.State() == old(host.State()).(stable := host.stable, operations := host.operations)
    {
      Timeless(host.State(), Payload(Stage.Stopping, 0), 0);
      s := RecordStage(stage);
      ghost var now :| Publishes(old(host.State()), host.State(), Payload(stage, now));
    }

    /** One turn of the stop loop. Neither evidence refusal can happen; the label is left stopped,
        unloaded and not restarted; nothing is said about any other label. */
    method StopLabel(l: Label) returns (s: Status)
      requires host.Valid() && Active() && l in host.labels
      modifies host, this`stopped, this`restarted
      ensures host.Valid() && Active() && host.intent == old(host.intent)
      ensures host.loaded <= old(host.loaded)
      ensures SameElsewhere(old(Seen()), Seen(), l)
      ensures s == Done || Broken(s) ||
              (s == Refused(LoadedDespiteStopped) && Stranded(l, old(Seen()))) ||
              (s == Refused(RecordInvalid) && old(Seen()).Touched(l) && old(restarted) - {l} != {})
      ensures s == Done ==> LabelStopped(old(Seen()), Seen(), l)
      ensures old(OnlyStopping()) ==> OnlyStopping()
    {
      var physicallyLoaded :- host.IsLoaded(l);
      if !physicallyLoaded {
        if l !in stopped {
          if (op, l) !in host.bootouts {
            return Refused(EvidenceMissing);
          }
          if host.bootouts[(op, l)] != BootoutIntent(op, l) {
            return Refused(BootoutChanged);
          }
          stopped := stopped + {l};
          assert restarted - {l} == restarted;
          :- RecordActive(Stage.Stopping);
        }
        return Done;
      }
      if l in stopped && l !in restarted {
        return Refused(LoadedDespiteStopped);
      }
      restarted := restarted - {l};
      :- EnsureBootoutIntent(l);
      :- RecordActive(Stage.Stopping);
      LabelUnloaded(host.State(), l, SetOf(host.labels));
      :- host.Bootout(l);
      stopped := stopped + {l};
      :- RecordActive(Stage.Stopping);
      s := Done;
    }

    /** The turns of the stop loop, in label order. */
    method StopLabels() returns (s: Status)
      requires host.Valid() && Active()
      modifies host, this`stopped, this`restarted
      ensures host.Valid() && Active() && host.intent == old(host.intent) && host.loaded <= old(host.loaded)
      ensures s == Done || Broken(s) || s == Refused(LoadedDespiteStopped) || s == Refused(RecordInvalid)
      ensures s == Done ==> old(Resumable(host.labels, Seen()))
      ensures s.Refused? ==> !old(Resumable(host.labels, Seen()))
      ensures s == Done ==> stopped == SetOf(host.labels) && host.loaded == {} && restarted == {}
      ensures old(OnlyStopping()) ==> OnlyStopping()
    {
      ghost var entry, touched := Seen(), false;
      for i := 0 to |host.labels|
        invariant host.Valid() && Active() && host.intent == old(host.intent) && host.loaded <= old(host.loaded)
        invariant old(OnlyStopping()) ==> OnlyStopping()
        invariant Progress(host.labels, i, entry, Seen(), touched)
      {
        ghost var before := Seen();
        s := StopLabel(host.labels[i]);
        if s != Done {
          if s.Refused? {
            Blocked(host.labels, i, entry, before, touched);
          }
          return;
        }
        LabelDone(host.labels, i, entry, before, Seen(), touched);
        touched := touched || before.Touched(host.labels[i]);
      }
      AllDone(host.labels, entry, Seen(), touched);
      assert stopped == SetOf(host.labels) && host.loaded == {} && restarted == {};
      s := Done;
    }

    /** The stop loop of `prepare` and its final record. From a stop phase it is never refused and
        leaves a stop phase behind at every interruption; from any other phase it gets through
        exactly when the restarted labels can be stopped again. */
    method StopLoop() returns (s: Status)
      requires host.Valid() && Active()
      modifies host, this`stopped, this`restarted
      ensures host.Valid() && Active() && host.intent == old(host.intent)
      ensures host.loaded <= old(host.loaded)
      ensures s == Done || Broken(s) || s == Refused(LoadedDespiteStopped) || s == Refused(RecordInvalid)
      ensures s == Done ==> old(Resumable(host.labels, Seen()))
      ensures s.Refused? ==> !old(Resumable(host.labels, Seen()))
      ensures s == Done ==>
                && host.loaded == {}
                && host.stable.value.stage == Stopped && host.stable.value.stopped == SetOf(host.labels)
                && op in host.operations && host.operations[op] == host.stable.value
                && stopped == SetOf(host.labels) && restarted == {}
      ensures old(OnlyStopping()) ==> OnlyStopping()
    {
      s := StopLabels();
      if s == Done {
        s := RecordActive(Stopped);
      }
    }

    // ---- Taking up or superseding the active operation ----

    /** `_materialize_prepared_root`: a prepared deployment that never became active is given its
        planned root record, so that a recovery can supersede it. */
    method MaterializeRoot() returns (s: Status)
      requires host.Valid()
      modifies host
      ensures host.Valid() && host.intent == old(host.intent) && host.proofs == old(host.proofs)
      ensures host.loaded == old(host.loaded)
      ensures || host.stable == old(host.stable)
              || (old(host.PreparedOnly()) && host.stable.Some? && host.stable.value.stage == Planned)
      ensures s.Refused? ==> s.why == NotRecoverable
      ensures s == Done && supersedes.Some? ==> !host.PreparedOnly()
      ensures forall o :: o in host.operations ==>
                o in old(host.operations) || (host.intent.Some? && o == host.intent.value.handoff)
      ensures !old(host.PreparedOnly()) ==> s == Done && host.State() == old(host.State())
      ensures host.stable != old(host.stable) ==> host.loaded == SetOf(host.labels)
      ensures s == Done && host.stable == old(host.stable) ==> host.State() == old(host.State())
    {
      if supersedes.None? || !host.PreparedOnly() {
        return Done;
      }
      var i := host.intent.value;
      if i.handoff != supersedes.value || i.Semantic() != IntentPlanned || target != i.TargetOf(action) {
        return Refused(NotRecoverable);
      }
      ghost var all := SetOf(host.labels);
      var now: int := *;
      var root := Record(i.handoff, Planned, SetOf(host.labels), {}, {}, i.target, Deploy, None, None, now);
      if i.handoff in host.operations {
        root := host.operations[i.handoff];
        if root.action != Deploy || root.target != i.target || root.stage != Planned {
          return Refused(NotRecoverable);
        }
      }
      assert host.labels[0] in SetOf(host.labels);
      assert StartsRoot(host.State(), root);
      RootPublishable(host.State(), root, all);
      ghost var before := host.State();
      if i.handoff !in host.operations {
        RecordPublished(before, WithOperation(before, root), root, all);
        StillPublishable(before, root, all);
        :- host.WriteOperation(root);
      }
      StablePublished(host.State(), root, all);
      s := host.WriteStable(root);
    }

    /** The active record is an incomplete one of exactly this handoff. */
    ghost predicate Resumes()
      reads this, host
    {
      && host.stable.Some? && host.stable.value.op !in host.proofs && host.stable.value.target == target
      && host.stable.value.action == action && host.stable.value.supersedes == supersedes
    }

    /** The active operation is incomplete, and this recovery is bound to supersede it. */
    predicate SupersedesPartial()
      reads this, host
    {
      && host.stable.Some? && host.stable.value.op !in host.proofs && supersedes == Some(host.stable.value.op)
      && host.intent.Some? && host.intent.value.handoff == host.stable.value.op
      && target == host.intent.value.TargetOf(action) && EdgeAllowed(action, host.stable.value.action)
    }

    /** `_load_incomplete_record`: take up the active operation, or find that it is to be superseded. */
    method LoadIncomplete() returns (s: Status, resumed: bool, partial: bool)
      requires host.Valid()
      modifies host, this`op, this`stopped, this`restarted, this`listed
      ensures host.Valid() && host.State() == old(host.State()).(stable := host.stable, operations := host.operations)
      ensures host.operations.Keys == old(host.operations).Keys
      ensures s.Refused? ==> s.why == BindingChanged
      ensures s == Done && (resumed || partial) ==> host.State() == old(host.State())
      ensures s == Done && resumed ==>
                && Active() && !partial && op == host.stable.value.op
                && stopped == host.stable.value.stopped && restarted == host.stable.value.restarted
      ensures s == Done && partial ==>
                && host.stable.Some? && host.intent.Some? && supersedes == Some(host.stable.value.op)
                && host.stable.value.op !in host.proofs && host.intent.value.handoff == host.stable.value.op
                && EdgeAllowed(action, host.stable.value.action) && target == host.intent.value.TargetOf(action)
      ensures listed == (old(listed) || (s == Done && (resumed || partial)))
      ensures s == Done && !resumed ==> stopped == old(stopped) && restarted == old(restarted)
      ensures s == Done && !resumed && !partial && host.stable.Some? ==>
                && old(host.stable).Some?
                && host.stable.value.op in host.proofs && host.stable.value == host.proofs[host.stable.value.op]
                && host.stable.value.op in host.operations && host.operations[host.stable.value.op] == host.stable.value
                && host.stable.value.SameBinding(old(host.stable).value)
      ensures host.stable.Some? == old(host.stable).Some?
      ensures old(host.stable).None? ==> s == Done && !resumed && !partial && host.State() == old(host.State())
      ensures old(host.stable).Some? && old(host.stable).value.op !in host.proofs ==>
                if old(Resumes()) then s == Done && resumed
                else if old(SupersedesPartial()) then s == Done && partial
                else s == Refused(BindingChanged)
      ensures old(host.stable).Some? && old(host.stable).value.op in host.proofs ==> !s.Refused? && !resumed && !partial
    {
      resumed, partial := false, false;
      if host.stable.None? {
        return Done, false, false;
      }
      var converged :- host.Converge();
      if converged {
        return Done, false, false;
      }
      var r := host.stable.value;
      var bindingChanged := r.target != target || r.action != action || r.supersedes != supersedes;
      if bindingChanged && supersedes == Some(r.op) {
        if host.intent.None? || host.intent.value.handoff != r.op || target != host.intent.value.TargetOf(action) {
          return Refused(BindingChanged), false, false;
        }
        if action == Deploy || (action == Resume && r.action != Deploy) {
          return Refused(BindingChanged), false, false;
        }
        listed := true;
        return Done, false, true;
      }
      if bindingChanged {
        return Refused(BindingChanged), false, false;
      }
      op, stopped, restarted, listed := r.op, r.stopped, r.restarted, true;
      return Done, true, false;
    }

    /** The labels launchd holds loaded, asked one by one. */
    method LoadedLabels() returns (s: Status, loadedNow: set<Label>)
      requires host.Valid()
      ensures s == Done || Broken(s)
      ensures s == Done ==> loadedNow == host.loaded
    {
      loadedNow := {};
      for i := 0 to |host.labels|
        invariant loadedNow == host.loaded * SetOf(host.labels[..i])
      {
        var isLoaded :- host.IsLoaded(host.labels[i]);
        assert host.labels[..i + 1] == host.labels[..i] + [host.labels[i]];
        if isLoaded {
          loadedNow := loadedNow + {host.labels[i]};
        }
      }
      assert host.labels[..|host.labels|] == host.labels;
      s := Done;
    }

    /** A token no record, proof or rebound has used. */
    ghost predicate FreshToken(token: OperationId)
      reads host
    {
      && token !in host.operations && token !in host.proofs
      && (host.intent.Some? ==> token !in host.intent.value.Chain() && token != host.intent.value.handoff)
    }

    /** This deployment has not begun, or only its stop loop has moved labels. */
    ghost predicate InProgress(previous: Sha)
      reads this, host
    {
      action == Deploy && supersedes.None? && DeployInProgress(host.State(), target, previous)
    }

    /** Another deployment's commits are prepared. */
    ghost predicate Foreign(previous: Sha)
      reads this, host
    {
      && host.intent.Some? && host.intent.value.prepared
      && (host.intent.value.target != target || host.intent.value.previous != previous)
    }

    /** An adopted deployment is not completed. */
    predicate Unfinished()
      reads this, host
    {
      host.intent.Some? && !host.intent.value.prepared && host.intent.value.Semantic() != IntentCompleted
    }

    /** `prepare_intent` of a deployment that starts afresh. The lock and the verification of the installed
        generation come first and may fail; then the prepared intent is reused or one is written. */
    method PrepareIntent(previous: Sha) returns (s: Status)
      requires host.Valid() && FreshToken(op) && action == Deploy
      requires host.stable.Some? ==> host.stable.value.stage == Completed && host.stable.value.op in host.proofs
      modifies host, this`op
      ensures host.Valid() && host.State() == old(host.State()).(intent := host.intent)
      ensures s.Refused? ==> s.why in {BindingChanged, IntentIncomplete}
      ensures s != Done ==> op == old(op)
      ensures s != Done && Named() ==> Unstarted(host.State(), host.intent.value) && host.intent.value.target == target
      ensures s == Refused(BindingChanged) ==> old(Foreign(previous))
      ensures old(Foreign(previous)) ==> Broken(s) || s == Refused(BindingChanged)
      ensures s == Refused(IntentIncomplete) ==> old(Unfinished())
      ensures old(Unfinished()) ==> Broken(s) || s == Refused(IntentIncomplete)
      ensures old(Foreign(previous) || Unfinished()) ==> host.State() == old(host.State())
      ensures s == Done ==>
                && host.intent.Some? && Unstarted(host.State(), host.intent.value)
                && op == host.intent.value.handoff && target == host.intent.value.target
                && previous == host.intent.value.previous
                && (host.stable.Some? ==> host.stable.value.op != op)
      ensures old(InProgress(previous)) && old(host.stable).None? ==> InProgress(previous) && !s.Refused?
    {
      s := host.Attempt();
      if s != Done {
        return;
      }
      if Unfinished() {
        return Refused(IntentIncomplete);
      }
      if host.intent.Some? && host.intent.value.prepared {
        if host.intent.value.target != target || host.intent.value.previous != previous {
          return Refused(BindingChanged);
        }
        op := host.intent.value.handoff;
        return Done;
      }
      var i := Intent(op, op, previous, target, true, [Entered(IntentPlanned)]);
      IntentStarted(host.State(), i, SetOf(host.labels));
      s := host.WriteIntent(i);
    }

    /** A deployment that starts afresh: every daemon must be loaded. */
    method BeginDeploy(token: OperationId, previous: Sha) returns (s: Status)
      requires host.Valid() && FreshToken(token) && action == Deploy && supersedes.None?
      requires host.stable.Some? ==> host.stable.value.stage == Completed && host.stable.value.op in host.proofs
      requires !listed
      modifies host, this`op, this`stopped, this`restarted, this`listed, this`bound
      ensures listed ==> Active() || New()
      ensures host.Valid() && host.loaded == old(host.loaded)
      ensures s.Refused? ==> s.why in {NotAllLoaded, BindingChanged, IntentIncomplete}
      ensures old(InProgress(previous)) && old(host.stable).None? ==> InProgress(previous) && !s.Refused?
      ensures s == Done ==> Active() && OnlyStopping()
      ensures s == Done ==> host.intent.Some? && host.intent.value.handoff == op
      ensures !MayRestart() ==> old(BeginsAfresh(host.State(), SetOf(host.labels), PlanFor(previous, false)))
      ensures s == Done ==> listed
    {
      op := token;
      var loadedNow :- LoadedLabels();
      if loadedNow != SetOf(host.labels) {
        return Refused(NotAllLoaded);
      }
      stopped, restarted, listed := {}, {}, true;
      :- PrepareIntent(previous);
      bound := true;
      s := PublishRoot();
    }

    /** The first record of a deployment whose intent is prepared. */
    method PublishRoot() returns (s: Status)
      requires host.Valid() && action == Deploy && supersedes.None? && stopped == {} && restarted == {}
      requires host.intent.Some? && Unstarted(host.State(), host.intent.value)
      requires op == host.intent.value.handoff && target == host.intent.value.target
      requires host.stable.Some? ==> host.stable.value.stage == Completed && host.stable.value.op != op
      modifies host
      ensures host.Valid() && host.loaded == old(host.loaded) && host.intent == old(host.intent)
      ensures host.proofs == old(host.proofs)
      ensures s == Done || Broken(s)
      ensures host.stable == old(host.stable) || (host.stable.Some? && IsFirst(host.stable.value))
      ensures s == Done ==> Active() && OnlyStopping()
      ensures Active() || New()
    {
      ghost var before := host.State();
      assert host.labels[0] in SetOf(host.labels);
      assert IsRoot(Payload(Planned, 0), host.intent.value);
      RootPublishable(before, Payload(Planned, 0), SetOf(host.labels));
      s := RecordStage(Planned);
      ghost var now :| Publishes(before, host.State(), Payload(Planned, now));
      if s == Done {
        now :| host.State() == WithRecord(before, Payload(Planned, now));
        assert host.stable == Some(Payload(Planned, now));
      }
    }

    /** The intent names the operation in hand. */
    predicate Named()
      reads this, host
    {
      host.intent.Some? && host.intent.value.handoff == op
    }

    /** The operation in hand has been drawn but is not the active one. */
    ghost predicate New()
      reads this, host
    {
      && restarted == {} && stopped <= SetOf(host.labels)
      && NotActive(host.State(), Payload(Restarting, 0), SetOf(host.labels))
    }

    /** What `prepare` leaves behind wherever it ends, a fork aside. */
    ghost predicate Interrupted()
      reads this, host
    {
      host.Valid() && (listed ==> Active() || New())
    }

    ghost predicate IsFirst(r: Record)
      reads this, host
    {
      r == Payload(Planned, r.updatedAt)
    }

    /** The intent can follow a successor of the active operation. */
    predicate Followable()
      reads this, host
    {
      && host.stable.Some? && host.intent.Some?
      && supersedes == Some(host.stable.value.op) && host.intent.value.handoff == host.stable.value.op
      && host.intent.value.Semantic() != IntentCompleted
    }

    /** The operation in hand supersedes the active one, which the intent names. */
    method PublishSuccessor(stage: Stage, partial: bool) returns (s: Status)
      requires host.Valid() && FreshToken(op) && action != Deploy && Followable() && Supersedable(partial)
      requires restarted == {} && stopped == SetOf(host.labels) - host.loaded
      requires stage == if stopped != {} then Stage.Stopping else Planned
      modifies host
      ensures host.Valid() && host.loaded == old(host.loaded) && host.intent == old(host.intent)
      ensures s.Refused? ==> s.why == RecordInvalid
      ensures Active() || New()
      ensures s == Done ==> Active() && OnlyStopping() && Linked(host.State(), host.intent.value, host.stable.value)
      ensures !s.Refused? && exists now :: Publishes(old(host.State()), host.State(), Payload(stage, now))
    {
      ghost var before, all := host.State(), SetOf(host.labels);
      s := RecordStage(stage);
      if s == Done {
        ghost var now :| host.State() == WithRecord(before, Payload(stage, now));
        RecordPublished(before, host.State(), Payload(stage, now), all);
      }
    }

    /** The operation in hand is published although the intent cannot follow it. */
    method PublishFork(stage: Stage, partial: bool) returns (s: Status, forked: bool)
      requires host.Valid() && FreshToken(op) && action != Deploy && !Followable()
      requires host.stable.Some? && host.intent.Some? && host.intent.value.handoff == host.stable.value.op
      requires Supersedable(partial) && restarted == {} && stopped <= SetOf(host.labels)
      requires stage == if stopped != {} then Stage.Stopping else Planned
      modifies host
      ensures host.loaded == old(host.loaded) && host.intent == old(host.intent)
      ensures !forked ==> host.Valid()
      ensures !forked ==> New()
      ensures forked ==> !InStep(host.State())
      ensures forked ==> host.stable.Some? && host.stable.value.supersedes == supersedes
      ensures s.Refused? <==> s == Refused(RecordInvalid)
      ensures s == Refused(RecordInvalid) ==> supersedes.None? || supersedes == Some(op)
      ensures s == Done ==> forked
    {
      ghost var before, all := host.State(), SetOf(host.labels);
      var now: int := *;
      var p := Payload(stage, now);
      assert host.labels[0] in SetOf(host.labels);
      if !p.WellFormed() {
        return Refused(RecordInvalid), false;
      }
      s := host.WriteRecord(p);
      OrphanFiled(before, p, all);
      ForkOutOfStep(before, p, all);
      forked := host.stable == Some(p);
    }

    /** A recovery publishes its operation as the successor of the active one. When the intent cannot
        follow it, the published record forks the chain. */
    method BeginRecovery(token: OperationId, partial: bool) returns (s: Status, forked: bool)
      requires host.Valid() && FreshToken(token) && action != Deploy
      requires Supersedable(partial) && stopped == {} && restarted == {} && (listed ==> partial)
      modifies host, this`op, this`stopped, this`restarted, this`listed
      ensures !forked && listed ==> Active() || New()
      ensures host.loaded == old(host.loaded) && host.intent == old(host.intent)
      ensures !forked ==> host.Valid()
      ensures forked ==> !old(Followable()) && !InStep(host.State())
      ensures forked ==> host.stable.Some? && host.stable.value.supersedes == supersedes
      ensures forked ==> restarted == {}
      ensures s.Refused? ==> s.why == RecordInvalid
      ensures s == Done && !forked ==> Active() && OnlyStopping()
      ensures s == Done && !forked ==> Linked(host.State(), host.intent.value, host.stable.value)
      ensures s == Done && !forked ==> supersedes == Some(old(host.stable).value.op) == Some(host.intent.value.handoff)
      ensures s == Done ==> (forked <==> !old(Followable()))
      ensures old(Forking()) ==> !s.Refused?
      ensures !forked && !MayRestart() ==>
                !old(Followable()) || (partial && host.loaded != SetOf(host.labels))
      ensures partial && old(InStopPhase()) ==> InStopPhase() && !s.Refused?
      ensures s == Done ==> listed
    {
      forked := false;
      op := token;
      var loadedNow :- LoadedLabels();
      listed := true;
      stopped := if partial then SetOf(host.labels) - loadedNow else {};
      restarted := {};
      var stage := if stopped != {} then Stage.Stopping else Planned;
      assert host.labels[0] in SetOf(host.labels);
      if Followable() {
        ghost var before := host.State();
        s := PublishSuccessor(stage, partial);
        if RecoveryInProgress(before, target, action) {
          ghost var now :| Publishes(before, host.State(), Payload(stage, now));
          StopPhaseKept(before, host.State(), Payload(stage, now), SetOf(host.labels));
        }
      } else {
        s, forked := PublishFork(stage, partial);
      }
    }

    /** No active record can be taken up: none is in progress, or a recovery is to supersede it. */
    ghost predicate Beginnable(partial: bool)
      reads this, host
    {
      && (action == Deploy ==> supersedes.None? && !partial) && (partial ==> supersedes.Some?)
      && (action == Deploy && host.stable.Some? ==>
            host.stable.value.stage == Completed && host.stable.value.op in host.proofs)
      && (action != Deploy && supersedes.Some? ==> Supersedable(partial))
    }

    ghost predicate Supersedable(partial: bool)
      reads this, host
    {
      && host.stable.Some? && host.intent.Some? && Linked(host.State(), host.intent.value, host.stable.value)
      && host.intent.value.handoff == host.stable.value.op
      && (partial ==> host.stable.value.op !in host.proofs && Followable())
      && (!partial ==>
            && host.stable.value.op in host.proofs && host.stable.value.op in host.operations
            && host.stable.value == host.operations[host.stable.value.op] == host.proofs[host.stable.value.op])
      && (Followable() ==>
            target == host.intent.value.TargetOf(action) && EdgeAllowed(action, host.stable.value.action))
    }

    /** A failure while the operation in hand begins may be followed by an unsafe restart. */
    ghost predicate Risky(previous: Sha, partial: bool)
      reads this, host
    {
      if action == Deploy then BeginsAfresh(host.State(), SetOf(host.labels), PlanFor(previous, false))
      else supersedes.Some? && (!Followable() || (partial && host.loaded != SetOf(host.labels)))
    }

    /** Beginning the operation in hand when no active record could be taken up. */
    method Begin(token: OperationId, previous: Sha, partial: bool) returns (s: Status, forked: bool)
      requires host.Valid() && FreshToken(token) && Beginnable(partial)
      requires stopped == {} && restarted == {} && (listed ==> partial) && (partial ==> supersedes.Some?)
      modifies host, this`op, this`stopped, this`restarted, this`listed, this`bound
      ensures !forked && listed ==> Active() || New()
      ensures host.loaded == old(host.loaded) && (!forked ==> host.Valid())
      ensures forked ==> action != Deploy && supersedes.Some? && !old(Followable()) && !InStep(host.State())
      ensures forked ==> host.stable.Some? && host.stable.value.supersedes == supersedes
      ensures forked ==> restarted == {}
      ensures s == Done ==> !forked && Active() && OnlyStopping()
      ensures s == Done ==>
                && host.intent.Some? && Linked(host.State(), host.intent.value, host.stable.value)
                && host.stable.value.op == op
      ensures s == Done && supersedes.None? ==> host.intent.value.handoff == op
      ensures s == Done && supersedes.Some? ==> old(Followable()) && supersedes == Some(host.intent.value.handoff)
      ensures old(InProgress(previous)) && old(host.stable).None? ==> InProgress(previous) && !s.Refused?
      ensures action != Deploy && old(Forking()) ==> Broken(s) || (forked && s == Refused(ReboundChanged))
      ensures s.Refused? ==> s.why in {NotAllLoaded, BindingChanged, IntentIncomplete, RecordInvalid, ReboundChanged}
      ensures !forked && !MayRestart() ==> old(Risky(previous, partial))
      ensures partial && old(InStopPhase()) ==> InStopPhase() && !s.Refused?
      ensures s == Done ==> listed
    {
      forked := false;
      if action == Deploy {
        s := BeginDeploy(token, previous);
        return;
      }
      if supersedes.None? {
        // A recovery record must name the operation it supersedes.
        return Refused(RecordInvalid), false;
      }
      var follows := Followable();
      s, forked := BeginRecovery(token, partial);
      if s == Done && !follows {
        // Published, but the intent names neither this operation nor the one it supersedes.
        s := Refused(ReboundChanged);
      }
    }

    /** What this invocation has set out to do. */
    function PlanFor(previous: Sha, committed: bool): Plan
      reads this
    {
      Plan(action, target, previous, supersedes, committed)
    }

    ghost predicate Forks(committed: bool)
      reads this, host
    {
      HandoffStore.Forks(host.State(), Plan(action, target, target, supersedes, committed))
    }

    /** This recovery supersedes an operation with labels unloaded. */
    ghost predicate Forgets(committed: bool)
      reads this, host
    {
      SupersedesUnloaded(host.State(), SetOf(host.labels), PlanFor(target, committed))
    }

    /** A recovery that finds its operation in the stop phase, or another that it may supersede. */
    ghost predicate InStopPhase()
      reads this, host
    {
      RecoveryInProgress(host.State(), target, action)
    }

    ghost predicate Recovering()
      reads this, host
    {
      && InStopPhase()
      && (supersedes.Some? ==>
            && supersedes == Some(host.stable.value.op) == Some(host.intent.value.handoff)
            && EdgeAllowed(action, host.stable.value.action))
    }

    /** A torn record refuses this recovery. */
    ghost predicate Stuck(committed: bool)
      reads this, host
    {
      HandoffStore.Refuses(host.State(), Plan(action, target, target, supersedes, committed))
    }

    /** A recovery that supersedes a proven operation and that the intent cannot follow. */
    ghost predicate Forking()
      reads this, host
    {
      && supersedes.Some? && supersedes.value in host.operations && !Followable()
      && host.stable.Some? && host.stable.value.op in host.proofs
    }

    /** Which operation a recovery supersedes. */
    method NameSuperseded(committed: bool, ghost token: OperationId) returns (s: Status)
      requires host.Valid() && action != Deploy && host.intent.Some? && target == host.intent.value.TargetOf(action)
      requires supersedes.Some? ==> action == Rollback && host.stable.Some? && supersedes == Some(host.stable.value.op)
      modifies host, this`supersedes
      ensures host.Valid() && host.State() == old(host.State()).(intent := host.intent) && host.intent.Some?
      ensures old(FreshToken(token)) ==> FreshToken(token)
      ensures s == Done ==> target == host.intent.value.TargetOf(action)
      ensures s == Done && supersedes.Some? ==> host.PreparedOnly() || host.stable.Some?
      ensures s == Done && supersedes.Some? && !host.PreparedOnly() ==> Decided()
      ensures s == Done && supersedes.Some? && !host.PreparedOnly() && host.stable.value.op in host.proofs ==>
                (Followable() <==> !old(Forks(committed)))
      ensures old(Forks(committed)) ==> Broken(s) || (s == Done && Forking() && !host.PreparedOnly())
      ensures s == Done && old(Forks(committed)) && old(supersedes).None? ==>
                supersedes == old(host.stable).value.supersedes
      ensures s.Refused? ==>
                s.why in {IntentMissing, BindingChanged, DeploymentCompleted, NotRecoverable, OperationChanged,
                          EdgeConflict}
      ensures s == Refused(OperationChanged) <==> old(Stuck(committed))
      ensures s == Refused(OperationChanged) ==> host.State() == old(host.State())
      ensures s == Done && SupersedesPartial() && host.loaded != SetOf(host.labels) ==> old(Forgets(committed))
      ensures old(Recovering()) ==>
                && InStopPhase() && (old(supersedes.Some? || !host.Torn()) ==> !s.Refused?)
                && (s == Done ==> Resumes() || SupersedesPartial())
    {
      if supersedes.None? {
        var superseded;
        s, superseded := host.SupersedingOperation(action, committed);
        if host.intent != old(host.intent) {
          ReboundKeeps(old(host.intent).value, host.stable.value.op);
        }
        if s == Done {
          supersedes := superseded;
        }
      } else {
        s := Done;
      }
    }

    /** Which operation a recovery supersedes, and a root for it to supersede. */
    method ChooseOperation(committed: bool, ghost token: OperationId) returns (s: Status)
      requires host.Valid()
      requires supersedes.Some? ==> action == Rollback && host.stable.Some? && supersedes == Some(host.stable.value.op)
      modifies host, this`supersedes
      ensures host.Valid() && host.proofs == old(host.proofs) && host.loaded == old(host.loaded)
      ensures host.stable == old(host.stable) || (host.stable.Some? && host.stable.value.stage == Planned)
      ensures old(FreshToken(token)) ==> FreshToken(token)
      ensures action == Deploy ==> s == Done && supersedes == old(supersedes) && host.State() == old(host.State())
      ensures s == Done && action != Deploy ==> Decided()
      ensures s == Done && supersedes.Some? && host.stable.value.op in host.proofs ==>
                (Followable() <==> !old(Forks(committed)))
      ensures old(Forks(committed)) ==> Broken(s) || (s == Done && Forking())
      ensures s == Done && old(Forks(committed)) && old(supersedes).None? ==>
                supersedes == old(host.stable).value.supersedes
      ensures s.Refused? ==>
                s.why in {IntentMissing, BindingChanged, DeploymentCompleted, NotRecoverable, OperationChanged,
                          EdgeConflict}
      ensures s == Refused(OperationChanged) <==> old(Stuck(committed))
      ensures s == Refused(OperationChanged) ==> host.State() == old(host.State())
      ensures s == Done && SupersedesPartial() && host.loaded != SetOf(host.labels) ==> old(Forgets(committed))
      ensures old(Recovering()) ==>
                && InStopPhase() && (old(supersedes.Some? || !host.Torn()) ==> !s.Refused?)
                && (s == Done ==> Resumes() || SupersedesPartial())
    {
      if action == Deploy {
        return Done;
      }
      if host.intent.None? {
        return Refused(IntentMissing);
      }
      if target != host.intent.value.TargetOf(action) {
        return Refused(BindingChanged);
      }
      :- NameSuperseded(committed, token);
      s := MaterializeRoot();
    }

    /** The active record has been taken up into memory. */
    ghost predicate TakenUp()
      reads this, host
    {
      && Active() && host.intent.Some? && Linked(host.State(), host.intent.value, host.stable.value)
      && host.stable.value.op == op && supersedes == host.stable.value.supersedes && action == host.stable.value.action
      && stopped == host.stable.value.stopped && restarted == host.stable.value.restarted
    }

    method TakeUpDeploy(ghost token: OperationId) returns (s: Status, resumed: bool, partial: bool)
      requires host.Valid() && action == Deploy && supersedes.None?
      modifies host, this`op, this`stopped, this`restarted, this`listed
      ensures host.Valid() && host.loaded == old(host.loaded)
      ensures listed == (old(listed) || (s == Done && (resumed || partial)))
      ensures s == Done && !resumed ==> stopped == old(stopped) && restarted == old(restarted)
      ensures old(FreshToken(token)) ==> FreshToken(token)
      ensures s == Done && !resumed ==> Beginnable(partial)
      ensures s == Done && resumed ==> TakenUp()
      ensures old(host.stable).None? || old(Resumes()) ==>
                s == Done && resumed == host.stable.Some? && host.State() == old(host.State())
      ensures s.Refused? ==> s.why == BindingChanged
      ensures action == Deploy && s == Done && !resumed ==>
                && host.intent == old(host.intent)
                && (old(host.stable).Some? ==> old(host.stable).value.op in old(host.proofs))
    {
      s, resumed, partial := LoadIncomplete();
    }

    /** A recovery knows which operation it supersedes. */
    ghost predicate Decided()
      reads this, host
    {
      && action != Deploy && host.intent.Some? && target == host.intent.value.TargetOf(action)
      && (supersedes.Some? ==>
            && host.stable.Some?
            && (host.stable.value.op in host.proofs ==>
                  !host.intent.value.prepared && (Followable() ==> EdgeAllowed(action, host.stable.value.action))))
    }

    method ResumeOrSupersede(ghost token: OperationId) returns (s: Status, resumed: bool, partial: bool)
      requires host.Valid() && Decided()
      modifies host, this`op, this`stopped, this`restarted, this`listed
      ensures host.Valid() && host.loaded == old(host.loaded)
      ensures listed == (old(listed) || (s == Done && (resumed || partial)))
      ensures s == Done && !resumed ==> stopped == old(stopped) && restarted == old(restarted)
      ensures old(FreshToken(token)) ==> FreshToken(token)
      ensures s == Done && !resumed ==> Beginnable(partial)
      ensures s == Done && !resumed && supersedes.Some? && !Followable() ==>
                !old(Followable()) && old(host.stable).value.op in old(host.proofs)
      ensures old(Forking()) ==> Broken(s) || (s == Done && !resumed && Forking())
      ensures s == Done && resumed ==> TakenUp()
      ensures s.Refused? ==> s.why == BindingChanged
      ensures s == Done && partial ==> old(SupersedesPartial())
      ensures old(InStopPhase() && (Resumes() || SupersedesPartial())) ==>
                s == Done && host.State() == old(host.State()) && if resumed then OnlyStopping() else partial
    {
      s, resumed, partial := LoadIncomplete();
      if s == Done && !resumed && supersedes.Some? {
        if !partial {
          LinkedWhenProven(host.State(), SetOf(host.labels));
        }
        assert Supersedable(partial);
      }
    }

    /** A recovery chooses its operation first. */
    method TakeUpRecovery(committed: bool, ghost token: OperationId) returns (s: Status, resumed: bool, partial: bool)
      requires host.Valid() && action != Deploy
      requires supersedes.Some? ==> action == Rollback && host.stable.Some? && supersedes == Some(host.stable.value.op)
      modifies host, this`op, this`stopped, this`restarted, this`listed, this`supersedes
      ensures host.Valid() && host.loaded == old(host.loaded)
      ensures listed == (old(listed) || (s == Done && (resumed || partial)))
      ensures s == Done && !resumed ==> stopped == old(stopped) && restarted == old(restarted)
      ensures old(FreshToken(token)) ==> FreshToken(token)
      ensures s == Done && !resumed ==> Beginnable(partial)
      ensures s == Done && !resumed && supersedes.Some? && !Followable() ==> old(Forks(committed))
      ensures old(Forks(committed)) ==> Broken(s) || (s == Done && !resumed && Forking())
      ensures s == Done && old(Forks(committed)) && old(supersedes).None? ==>
                supersedes == old(host.stable).value.supersedes
      ensures s == Done && resumed ==> TakenUp()
      ensures s.Refused? ==> s.why !in {EvidenceMissing, BootoutChanged, ChainInvalid, LoadedDespiteStopped}
      ensures s == Refused(OperationChanged) <==> old(Stuck(committed))
      ensures s == Refused(OperationChanged) ==> host.State() == old(host.State())
      ensures action != Deploy && s == Done && partial && host.loaded != SetOf(host.labels) ==> old(Forgets(committed))
      ensures old(Recovering()) ==>
                && InStopPhase() && (old(supersedes.Some? || !host.Torn()) ==> !s.Refused?)
                && (s == Done ==> if resumed then OnlyStopping() else partial)
    {
      resumed, partial := false, false;
      :- ChooseOperation(committed, token);
      s, resumed, partial := ResumeOrSupersede(token);
    }

    /** Take up the active record, or find that the operation in hand has to begin. */
    method TakeUp(previous: Sha, committed: bool, ghost token: OperationId)
      returns (s: Status, resumed: bool, partial: bool)
      requires host.Valid()
      requires supersedes.Some? ==> action == Rollback && host.stable.Some? && supersedes == Some(host.stable.value.op)
      modifies host, this`op, this`stopped, this`restarted, this`listed, this`supersedes
      ensures host.Valid() && host.loaded == old(host.loaded)
      ensures listed == (old(listed) || (s == Done && (resumed || partial)))
      ensures s == Done && !resumed ==> stopped == old(stopped) && restarted == old(restarted)
      ensures old(FreshToken(token)) ==> FreshToken(token)
      ensures s == Done && !resumed ==> Beginnable(partial)
      ensures s == Done && !resumed && supersedes.Some? && !Followable() ==> old(Forks(committed))
      ensures old(Forks(committed)) ==> Broken(s) || (s == Done && !resumed && Forking())
      ensures s == Done && old(Forks(committed)) && old(supersedes).None? ==>
                supersedes == old(host.stable).value.supersedes
      ensures s == Done && resumed ==> TakenUp() && (action == Deploy ==> supersedes.None?)
      ensures old(InProgress(previous)) ==> s == Done && InProgress(previous) && resumed == host.stable.Some?
      ensures s.Refused? ==> s.why !in {EvidenceMissing, BootoutChanged, ChainInvalid, LoadedDespiteStopped}
      ensures s == Refused(OperationChanged) <==> old(Stuck(committed))
      ensures s == Refused(OperationChanged) ==> host.State() == old(host.State())
      ensures s == Done && !resumed && Risky(previous, partial) ==>
                old(AtRisk(host.State(), SetOf(host.labels), PlanFor(previous, committed)))
      ensures old(Recovering()) ==>
                && InStopPhase() && (old(supersedes.Some? || !host.Torn()) ==> !s.Refused?)
                && (s == Done ==> if resumed then OnlyStopping() else partial)
    {
      if action == Deploy {
        s, resumed, partial := TakeUpDeploy(token);
      } else {
        s, resumed, partial := TakeUpRecovery(committed, token);
      }
    }

    /** The intent follows the active record of the operation in hand. */
    method LetIntentFollow() returns (s: Status)
      requires host.Valid() && Active() && host.intent.Some? && host.stable.value.op == op
      requires Linked(host.State(), host.intent.value, host.stable.value)
      requires Named() || (supersedes.Some? && supersedes == Some(host.intent.value.handoff))
      modifies host
      ensures host.Valid() && Active() && host.State() == old(host.State()).(intent := host.intent)
      ensures s == Done || Broken(s)
      ensures supersedes.None? ==> host.State() == old(host.State())
      ensures s == Done ==> Named()
      ensures Linked(host.State(), host.intent.value, host.stable.value)
      ensures host.intent.value.TargetOf(action) == old(host.intent).value.TargetOf(action)
    {
      if supersedes.Some? {
        :- host.PersistRebound(supersedes.value, op);
      }
      s := Done;
    }

    /** The operation in hand was taken up from its active record; a deployment needs its intent, behind
        the same lock and verification. */
    method Continue() returns (s: Status)
      requires host.Valid() && TakenUp() && (action == Deploy ==> supersedes.None?)
      modifies this`bound
      ensures s == Done ==> Named() || (supersedes.Some? && supersedes == Some(host.intent.value.handoff))
      ensures s == Refused(IntentIncomplete) ==> action == Deploy && !host.intent.value.prepared
      ensures action == Deploy && s == Done ==> host.intent.value.prepared
      ensures action != Deploy ==> s == Done
      ensures host.intent.value.prepared && Named() ==> !s.Refused?
      ensures s.Refused? ==> s.why in {IntentIncomplete, BindingChanged}
    {
      if action != Deploy {
        return Done;
      }
      s := host.Attempt();
      if s != Done {
        return;
      }
      if !host.intent.value.prepared {
        return Refused(IntentIncomplete);
      }
      if host.intent.value.handoff != op {
        return Refused(BindingChanged);
      }
      bound := true;
    }

    /** Take the operation in hand up to its own active record. */
    method Activate(token: OperationId, previous: Sha, committed: bool) returns (s: Status, forked: bool)
      requires host.Valid() && FreshToken(token)
      requires supersedes.Some? ==> action == Rollback && host.stable.Some? && supersedes == Some(host.stable.value.op)
      requires stopped == {} && restarted == {} && !listed
      modifies host, this
      ensures host.loaded == old(host.loaded) && (!forked ==> Interrupted())
      ensures forked ==> old(Forks(committed)) && !InStep(host.State())
      ensures old(Forks(committed)) ==> Broken(s) || (forked && s == Refused(ReboundChanged))
      ensures forked ==> restarted == {}
      ensures forked && old(supersedes).None? ==>
                host.stable.Some? && host.stable.value.supersedes == old(host.stable).value.supersedes
      ensures s == Done ==> !forked && Active() && host.intent.Some? && host.stable.value.op == op
      ensures s == Done ==> Linked(host.State(), host.intent.value, host.stable.value)
      ensures s == Done ==> Named() || (supersedes.Some? && supersedes == Some(host.intent.value.handoff))
      ensures old(InProgress(previous)) ==> InProgress(previous) && !s.Refused? && (s == Done ==> OnlyStopping())
      ensures s.Refused? ==> s.why !in {EvidenceMissing, BootoutChanged, ChainInvalid, LoadedDespiteStopped}
      ensures s == Refused(OperationChanged) <==> old(Stuck(committed))
      ensures s == Refused(OperationChanged) ==> host.State() == old(host.State()) && !listed
      ensures !forked && !MayRestart() ==> old(AtRisk(host.State(), SetOf(host.labels), PlanFor(previous, committed)))
      ensures old(Recovering()) ==> InStopPhase() && (old(supersedes.Some? || !host.Torn()) ==> !s.Refused?)
      ensures s == Done ==> listed
      ensures old(Recovering()) && s == Done ==> OnlyStopping()
    {
      forked := false;
      var resumed, partial :- TakeUp(previous, committed, token);
      if !resumed {
        s, forked := Begin(token, previous, partial);
      } else {
        s := Continue();
      }
    }

    /** Everything `prepare` does before the stop loop: afterwards the active record is of the
        operation in hand and the intent names it. */
    method Establish(token: OperationId, previous: Sha, committed: bool) returns (s: Status, forked: bool)
      requires host.Valid() && FreshToken(token)
      requires supersedes.Some? ==> action == Rollback && host.stable.Some? && supersedes == Some(host.stable.value.op)
      requires stopped == {} && restarted == {} && !listed
      modifies host, this
      ensures host.loaded == old(host.loaded) && (!forked ==> Interrupted())
      ensures forked ==> old(Forks(committed)) && !InStep(host.State())
      ensures old(Forks(committed)) ==> Broken(s) || (forked && s == Refused(ReboundChanged))
      ensures forked ==> restarted == {}
      ensures forked && old(supersedes).None? ==>
                host.stable.Some? && host.stable.value.supersedes == old(host.stable).value.supersedes
      ensures s == Done ==> !forked && Active() && Named()
      ensures old(InProgress(previous)) ==> InProgress(previous) && !s.Refused? && (s == Done ==> OnlyStopping())
      ensures s.Refused? ==> s.why !in {EvidenceMissing, BootoutChanged, ChainInvalid, LoadedDespiteStopped}
      ensures s == Refused(OperationChanged) <==> old(Stuck(committed))
      ensures s == Refused(OperationChanged) ==> host.State() == old(host.State()) && !listed
      ensures !forked && !MayRestart() ==> old(AtRisk(host.State(), SetOf(host.labels), PlanFor(previous, committed)))
      ensures old(Recovering()) ==> InStopPhase() && (old(supersedes.Some? || !host.Torn()) ==> !s.Refused?)
      ensures s == Done ==> listed
      ensures old(Recovering()) && s == Done ==> OnlyStopping()
    {
      s, forked := Activate(token, previous, committed);
      if s == Done {
        s := LetIntentFollow();
      }
      if s == Done && action == Deploy {
        // `prepare_target`: build the target candidate.
        s := host.Attempt();
      }
    }

    /** `prepare`: take up or supersede the active operation, let the intent follow, and stop every
        daemon. The invariant holds at every exit, whatever failed or crashed, except after a fork,
        which happens exactly where `Forks` held unless something fails before; a prepare that gets
        through leaves every label unloaded behind a "stopped" record of the operation the intent
        names. */
    method Prepare(token: OperationId, previous: Sha, committed: bool) returns (s: Status, forked: bool)
      requires host.Valid() && FreshToken(token)
      requires supersedes.Some? ==> action == Rollback && host.stable.Some? && supersedes == Some(host.stable.value.op)
      requires stopped == {} && restarted == {} && !listed
      modifies host, this
      ensures host.loaded <= old(host.loaded) && (!forked ==> Interrupted())
      ensures forked ==> old(Forks(committed)) && !InStep(host.State())
      ensures old(Forks(committed)) ==> Broken(s) || (forked && s == Refused(ReboundChanged))
      ensures forked ==> restarted == {}
      ensures forked && old(supersedes).None? ==>
                host.stable.Some? && host.stable.value.supersedes == old(host.stable).value.supersedes
      ensures s == Done ==> !forked && Active() && Synced()
      ensures s == Done ==>
                && host.loaded == {} && host.stable.value.stage == Stopped
                && host.stable.value.stopped == SetOf(host.labels)
                && host.intent.Some? && host.intent.value.handoff == op
      ensures s != Refused(EvidenceMissing) && s != Refused(BootoutChanged) && s != Refused(ChainInvalid)
      ensures old(InProgress(previous)) ==> !forked && InProgress(previous) && !s.Refused?
      ensures s == Refused(OperationChanged) <==> old(Stuck(committed))
      ensures s == Refused(OperationChanged) ==> host.State() == old(host.State()) && !listed
      ensures !forked && !MayRestart() ==> old(AtRisk(host.State(), SetOf(host.labels), PlanFor(previous, committed)))
      ensures old(Recovering()) ==> InStopPhase() && (old(supersedes.Some? || !host.Torn()) ==> !s.Refused?)
      ensures s == Done ==> listed
    {
      s, forked := Establish(token, previous, committed);
      if s == Done {
        s := StopLoop();
      }
    }

    // ---- Restart and completion ----

    /** The active record and the operation record say what this process holds in memory. */
    ghost predicate Synced()
      reads this, host
    {
      && host.stable.Some? && op in host.operations
      && host.stable.value.SameBase(Payload(Stage.Stopping, 0))
      && host.operations[op].SameBase(Payload(Stage.Stopping, 0))
    }

    /** Exactly when restarting the labels after a failure keeps the invariant. */
    predicate MayRestart()
      reads this, host
    {
      !listed || Active() || !Payload(Restarting, 0).WellFormed() || MayPublish(host.State(), Payload(Restarting, 0))
    }

    /** A "restarting" record, of the active operation or not. */
    method RecordRestarting() returns (s: Status)
      requires restarted <= host.loaded
      modifies host
      ensures s == Done || Broken(s) || s == Refused(RecordInvalid)
      ensures Rewritten(old(host.State()), host.State(), Payload(Restarting, 0))
      ensures old(host.Valid() && Allowed(Restarting)) ==> host.Valid() && Allowed(Restarting)
      ensures old(host.Valid() && Active()) ==> host.Valid() && Active() && !s.Refused?
      ensures s == Done ==> Synced() && host.stable.value.stage == Restarting
    {
      ghost var before := host.State();
      if host.Valid() && Active() {
        assert Payload(Restarting, 0).WellFormed();
        assert Allowed(Restarting);
      }
      s := RecordStage(Restarting);
      ghost var now :| Publishes(before, host.State(), Payload(Restarting, now));
      PublishedIsRewritten(before, host.State(), Payload(Restarting, now), Payload(Restarting, 0));
      if s == Done {
        now :| host.State() == WithRecord(before, Payload(Restarting, now));
      }
    }

    /** One turn of `_restart_loaded_labels`: a bootstrap only ever follows a durable "restarting" record. */
    method RestartLabel(l: Label) returns (s: Status)
      requires l in host.labels && restarted <= host.loaded
      modifies host, this`restarted
      ensures host.intent == old(host.intent) && host.proofs == old(host.proofs)
      ensures s == Done || Broken(s) || s == Refused(RecordInvalid)
      ensures old(restarted) <= restarted <= old(restarted) + {l} && old(host.loaded) <= host.loaded
      ensures restarted <= host.loaded
      ensures old(host.Valid() && Allowed(Restarting)) ==> host.Valid() && Allowed(Restarting)
      ensures old(host.Valid() && Active()) ==> host.Valid() && Active() && !s.Refused?
      ensures host.loaded != old(host.loaded) ==> host.stable.Some? && host.stable.value.stage == Restarting
      ensures host.loaded == old(host.loaded) ==>
                Rewritten(old(host.State()), host.State(), old(Payload(Restarting, 0)))
      ensures s == Done ==> l in restarted && l in host.loaded && (old(Synced()) ==> Synced())
    {
      var isLoaded :- host.IsLoaded(l);
      if isLoaded {
        s := NoteLoaded(l);
        return;
      }
      :- RecordRestarting();
      s := BootstrapLabel(l);
    }

    /** A label found loaded is recorded as restarted. */
    method NoteLoaded(l: Label) returns (s: Status)
      requires l in host.labels && l in host.loaded && restarted <= host.loaded
      modifies host, this`restarted
      ensures host.loaded == old(host.loaded) && restarted == old(restarted) + {l}
      ensures s == Done || Broken(s) || s == Refused(RecordInvalid)
      ensures old(host.Valid() && Allowed(Restarting)) ==> host.Valid() && Allowed(Restarting)
      ensures old(host.Valid() && Active()) ==> host.Valid() && Active() && !s.Refused?
      ensures Rewritten(old(host.State()), host.State(), old(Payload(Restarting, 0)))
      ensures s == Done && (l !in old(restarted) || old(Synced())) ==> Synced()
    {
      if l in restarted {
        assert restarted + {l} == restarted;
        return Done;
      }
      MoreRestarted(host.State(), Payload(Restarting, 0), l, SetOf(host.labels));
      restarted := restarted + {l};
      s := RecordRestarting();
    }

    /** The bootstrap behind the record, and the record behind the bootstrap. */
    method BootstrapLabel(l: Label) returns (s: Status)
      requires l in host.labels && l !in host.loaded && restarted <= host.loaded
      requires host.stable.Some? && host.stable.value.stage == Restarting
      modifies host, this`restarted
      ensures host.intent == old(host.intent) && host.proofs == old(host.proofs)
      ensures s == Done || Broken(s) || s == Refused(RecordInvalid)
      ensures old(restarted) <= restarted <= old(restarted) + {l} && old(host.loaded) <= host.loaded
      ensures restarted <= host.loaded && host.stable.Some? && host.stable.value.stage == Restarting
      ensures old(host.Valid() && Allowed(Restarting)) ==> host.Valid() && Allowed(Restarting)
      ensures old(host.Valid() && Active()) ==> host.Valid() && Active() && !s.Refused?
      ensures host.loaded == old(host.loaded) ==> host.State() == old(host.State())
      ensures s == Done ==> l in restarted && l in host.loaded && Synced()
    {
      s := Load(l);
      if s != Done {
        return;
      }
      s := NoteLoaded(l);
    }

    method Load(l: Label) returns (s: Status)
      requires l in host.labels && host.stable.Some?
      modifies host
      ensures host.State() == old(host.State()) || host.State() == old(host.State()).(loaded := old(host.loaded) + {l})
      ensures s == Done || Broken(s)
      ensures s == Done ==> l in host.loaded
      ensures old(host.Valid() && Allowed(Restarting)) ==> host.Valid() && Allowed(Restarting)
      ensures old(host.Valid() && Active()) ==> host.Valid() && Active()
    {
      if host.Valid() {
        LabelLoaded(host.State(), l, SetOf(host.labels));
        if Publishable(host.State(), Payload(Restarting, 0), SetOf(host.labels)) {
          MoreLoaded(host.State(), Payload(Restarting, 0), l, SetOf(host.labels));
        }
      }
      s := host.Bootstrap(l);
    }

    /** `_restart_loaded_labels`: errors do not stop it, a crash does. Without an error every label
        is loaded, recorded as restarted, and the records agree with memory. */
    method RestartLabels() returns (s: Status, errors: nat)
      requires restarted <= host.loaded
      modifies host, this`restarted
      ensures host.intent == old(host.intent) && host.proofs == old(host.proofs) && old(host.loaded) <= host.loaded
      ensures s == Done || s == Crashed
      ensures old(host.Valid() && Allowed(Restarting)) ==> host.Valid() && Allowed(Restarting)
      ensures old(host.Valid() && Active()) ==> host.Valid() && Active()
      ensures host.loaded == old(host.loaded) ==>
                Rewritten(old(host.State()), host.State(), old(Payload(Restarting, 0)))
      ensures s == Done && errors == 0 ==>
                && SetOf(host.labels) <= restarted && SetOf(host.labels) <= host.loaded
                && (old(Synced()) ==> Synced())
    {
      errors := 0;
      ghost var p := Payload(Restarting, 0);
      for i := 0 to |host.labels|
        invariant host.intent == old(host.intent) && host.proofs == old(host.proofs)
        invariant restarted <= host.loaded && old(host.loaded) <= host.loaded
        invariant p == Payload(Restarting, 0).(restarted := p.restarted)
        invariant old(host.Valid() && Allowed(Restarting)) ==> host.Valid() && Allowed(Restarting)
        invariant old(host.Valid() && Active()) ==> host.Valid() && Active()
        invariant host.loaded == old(host.loaded) ==> Rewritten(old(host.State()), host.State(), p)
        invariant errors == 0 ==> (old(Synced()) ==> Synced())
        invariant errors == 0 ==> forall j :: 0 <= j < i ==> host.labels[j] in restarted
      {
        ghost var before := host.State();
        var status := RestartLabel(host.labels[i]);
        if host.loaded == old(host.loaded) {
          RewrittenAgain(old(host.State()), before, host.State(), p);
        }
        if status == Crashed {
          return Crashed, errors;
        }
        if status != Done {
          errors := errors + 1;
        }
      }
      assert forall l :: l in host.labels ==> exists j :: 0 <= j < |host.labels| && host.labels[j] == l;
      return Done, errors;
    }

    /** `_record("completed")`: proof, then operation, then active record. The proof is only written
        when every label was stopped and restarted. */
    method RecordCompleted(generation: Generation) returns (s: Status)
      requires host.Valid() && Active() && Synced()
      requires host.intent.Some? && !host.intent.value.prepared && host.intent.value.handoff == op
      requires stopped == restarted == SetOf(host.labels)
      modifies host
      ensures host.Valid() && host.intent == old(host.intent) && host.loaded == old(host.loaded)
      ensures s == Done || Broken(s)
      ensures op in host.proofs ==> host.proofs[op].stopped == host.proofs[op].restarted == SetOf(host.labels)
      ensures s == Done ==>
                && op in host.proofs && op in host.operations
                && host.stable == Some(host.proofs[op]) && host.operations[op] == host.proofs[op]
                && host.proofs[op].generation == Some(generation)
    {
      var now: int := *;
      var p := Payload(Completed, now).(generation := Some(generation));
      ghost var all := SetOf(host.labels);
      ProofPublished(host.State(), p, all);
      :- host.WriteProof(p);
      CompletionConverges(host.State(), all);
      :- host.WriteOperation(p);
      CompletionConverges(host.State(), all);
      s := host.WriteStable(p);
    }

    /** `restore`, given what the readiness wait observed. A completed proof is published only for a
        handoff that stopped and restarted every label, and for the generation it deployed. */
    method Restore(readiness: Option<Generation>) returns (s: Status)
      requires host.Valid() && Active() && Synced()
      requires host.intent.Some? && !host.intent.value.prepared && host.intent.value.handoff == op
      modifies host, this`restarted
      ensures host.Valid() && host.intent == old(host.intent)
      ensures op in host.proofs ==>
                && host.proofs[op].stopped == host.proofs[op].restarted == SetOf(host.labels)
                && readiness.Some? && readiness.value.code == target
      ensures s == Done ==> host.loaded == SetOf(host.labels) && (op in host.proofs <==> stopped == SetOf(host.labels))
      ensures s == Done && op in host.proofs ==>
                && op in host.operations
                && host.stable == Some(host.proofs[op]) && host.operations[op] == host.proofs[op]
    {
      var status, errors := RestartLabels();
      if status != Done {
        return status;
      }
      if errors > 0 || readiness.None? {
        return Failed;
      }
      if readiness.value.code != target {
        return Refused(WrongGeneration);
      }
      if stopped == SetOf(host.labels) {
        s := RecordCompleted(readiness.value);
      } else if action == Deploy && supersedes.None? {
        s := RecordActive(Aborted);
      } else {
        s := Refused(PartialHandoff);
      }
    }
  }

  /** Nothing is unloaded while no handoff is in progress, so a planned root needs no evidence. */
  lemma RootPublishable(s: Store, root: Record, labels: set<Label>)
    requires Inv(s, labels) && StartsRoot(s, root) && root.WellFormed() && root.labels == labels
    ensures Publishable(s, root, labels)
  {
    assert s.loaded == labels by {
      if s.stable.Some? {
        assert s.stable.value.restarted == labels;
      }
    }
  }

  /** A recovery that supersedes an operation in its stop phase continues that phase. */
  lemma StopPhaseKept(s: Store, t: Store, p: Record, labels: set<Label>)
    requires Inv(t, labels) && Publishes(s, t, p) && RecoveryInProgress(s, p.target, p.action)
    requires p.op !in s.proofs && p.restarted == {} && p.stopped !! s.loaded
    ensures RecoveryInProgress(t, p.target, p.action)
  {
  }

  lemma LinkedWhenProven(s: Store, labels: set<Label>)
    requires Inv(s, labels) && s.stable.Some? && s.intent.Some?
    requires s.stable.value.op in s.proofs && !s.intent.value.prepared
    ensures Linked(s, s.intent.value, s.stable.value) && s.intent.value.handoff == s.stable.value.op
  {
  }

  lemma StagePublished(s: Store, t: Store, p: Record, now: int, labels: set<Label>)
    requires Inv(s, labels) && Publishable(s, p, labels) && Publishes(s, t, p.(updatedAt := now))
    ensures Inv(t, labels) && Publishable(t, p, labels)
  {
    var q := p.(updatedAt := now);
    Timeless(s, p, now);
    RecordPublished(s, t, q, labels);
    RemainsPublishable(s, t, q, labels);
    Timeless(t, p, now);
  }

  lemma Timeless(s: Store, p: Record, now: int)
    ensures var q := p.(updatedAt := now);
            && q.WellFormed() == p.WellFormed()
            && EvidenceFor(s, q) == EvidenceFor(s, p)
            && Continues(s, q) == Continues(s, p)
            && StartsRoot(s, q) == StartsRoot(s, p)
            && Succeeds(s, q) == Succeeds(s, p)
  {
  }

  /** A token that no record, proof or rebound has used. */
  method DrawToken(host: Host) returns (token: OperationId)
    requires host.Valid()
    ensures token !in host.operations && token !in host.proofs
    ensures host.intent.Some? ==> token !in host.intent.value.Chain() && token != host.intent.value.handoff
  {
    var bound := if host.intent.Some? then SetOf(host.intent.value.Chain()) + {host.intent.value.handoff} else {};
    token := Unused(host.operations.Keys + host.proofs.Keys + bound);
  }

  /** A deployment whose process dies in the middle of preparing, over and over, until one attempt does
      not die. Whatever had been done before each death, no attempt is refused, no label is ever loaded
      again and so none is unloaded twice, every unloaded label keeps its durable evidence (`Evidence`
      in `Valid`), and an attempt that gets through has stopped every label. */
  method PrepareThroughCrashes(host: Host, target: Sha, previous: Sha, attempts: nat) returns (s: Status)
    requires host.Valid() && DeployInProgress(host.State(), target, previous)
    modifies host
    ensures host.Valid() && DeployInProgress(host.State(), target, previous)
    ensures !s.Refused? && host.loaded <= old(host.loaded)
    ensures s == Done ==>
              && host.loaded == {} && host.stable.Some?
              && host.stable.value.stage == Stopped && host.stable.value.stopped == SetOf(host.labels)
  {
    s := Crashed;
    for i := 0 to attempts
      invariant host.Valid() && DeployInProgress(host.State(), target, previous) && s == Crashed
      invariant host.loaded <= old(host.loaded)
    {
      var token := DrawToken(host);
      var handoff := new Handoff(host, target, Deploy, None);
      var forked;
      s, forked := handoff.Prepare(token, previous, false);
      if s != Crashed {
        return;
      }
    }
  }

  /** The same for a resume or a rollback that takes up its own operation while that is stopping, or
      supersedes another that is incomplete. It can be refused only for a torn record: if one of the
      deaths fell between the two record writes. */
  method RecoverThroughCrashes(host: Host, target: Sha, recovery: Action, committed: bool, attempts: nat)
    returns (s: Status)
    requires host.Valid() && RecoveryInProgress(host.State(), target, recovery)
    modifies host
    ensures host.Valid() && RecoveryInProgress(host.State(), target, recovery)
    ensures host.loaded <= old(host.loaded)
    ensures s.Refused? <==> s == Refused(OperationChanged)
    ensures s.Refused? ==> host.Torn()
    ensures old(host.Torn()) && attempts > 0 ==> s.Refused? && host.State() == old(host.State())
    ensures attempts == 0 ==> !s.Refused?
    ensures s == Done ==>
              && host.loaded == {} && host.stable.Some?
              && host.stable.value.stage == Stopped && host.stable.value.stopped == SetOf(host.labels)
  {
    s := Crashed;
    for i := 0 to attempts
      invariant host.Valid() && RecoveryInProgress(host.State(), target, recovery) && s == Crashed
      invariant host.loaded <= old(host.loaded)
      invariant i > 0 ==> !old(host.Torn())
      invariant i == 0 ==> host.State() == old(host.State())
    {
      var token := DrawToken(host);
      var handoff := new Handoff(host, target, recovery, None);
      var forked;
      s, forked := handoff.Prepare(token, target, committed);
      if s != Crashed {
        return;
      }
    }
  }

  /** A formal rollback, which is given the active operation, and behind its death the rollbacks that have
      to find it: the first attempt is not even refused for a torn record. */
  method RollBackThroughCrashes(host: Host, target: Sha, committed: bool, attempts: nat) returns (s: Status)
    requires host.Valid() && RecoveryInProgress(host.State(), target, Rollback)
    requires host.intent.value.handoff == host.stable.value.op && EdgeAllowed(Rollback, host.stable.value.action)
    modifies host
    ensures host.Valid() && RecoveryInProgress(host.State(), target, Rollback)
    ensures host.loaded <= old(host.loaded)
    ensures s.Refused? ==> attempts > 0 && s == Refused(OperationChanged) && host.Torn()
    ensures s == Done ==>
              && host.loaded == {} && host.stable.Some?
              && host.stable.value.stage == Stopped && host.stable.value.stopped == SetOf(host.labels)
  {
    var token := DrawToken(host);
    var handoff := new Handoff(host, target, Rollback, Some(host.stable.value.op));
    var forked;
    s, forked := handoff.Prepare(token, target, committed);
    if s == Crashed {
      s := RecoverThroughCrashes(host, target, Rollback, committed, attempts);
    }
  }

  /** A torn record refuses every later recovery of its kind: nothing is written, so nothing changes. */
  method RetryTorn(host: Host, target: Sha, recovery: Action, committed: bool, attempts: nat) returns (refusals: nat)
    requires host.Valid() && Refuses(host.State(), Plan(recovery, target, target, None, committed))
    modifies host
    ensures host.Valid() && host.State() == old(host.State())
    ensures refusals == attempts
  {
    refusals := 0;
    for i := 0 to attempts
      invariant host.Valid() && host.State() == old(host.State()) && refusals == i
    {
      var token := DrawToken(host);
      var handoff := new Handoff(host, target, recovery, None);
      var s, forked := handoff.Prepare(token, target, committed);
      if s == Refused(OperationChanged) {
        refusals := refusals + 1;
      }
    }
  }

  /** The second rollback of that store: the protocol itself supersedes deployment 1 once more, and
      unless it fails or crashes before, publishes the record that the intent cannot follow. */
  method SecondRollback(host: Host, token: OperationId) returns (s: Status, forked: bool)
    requires host.labels == [SCHEDULER, WORKER, FINALIZER] && host.State() == ForkedRollbackStore()
    requires token != 1 && token != 2
    modifies host
    ensures Broken(s) || (forked && s == Refused(ReboundChanged))
    ensures forked ==> !InStep(host.State()) && host.stable.Some? && host.stable.value.supersedes == Some(1)
  {
    ForkedStoreInv();
    ForkedChain();
    assert SetOf(host.labels) == DAEMONS;
    var handoff := new Handoff(host, "old", Rollback, None);
    s, forked := handoff.Prepare(token, "", false);
  }
}
