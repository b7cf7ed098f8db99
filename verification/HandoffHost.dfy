/**
 The host the Lab launchd handoff runs on: its durable files, launchd, and the recovery
 functions that work on the files alone. Any write or command may fail, with or without having
 taken effect, and the process may die at any of them.
 */
module HandoffHost {
  import opened Basics
  import opened HandoffRecords
  import opened HandoffStore
  import opened HandoffChain

  datatype Refusal =
    | RecordInvalid            // the record to publish is not a legal handoff state
    | EvidenceMissing          // unloaded label lacks durable bootout evidence
    | BootoutChanged           // bootout intent binding changed
    | LoadedDespiteStopped     // label is loaded despite a durable stopped state
    | NotAllLoaded             // all daemons must be loaded before deployment
    | BindingChanged           // handoff binding changed
    | IntentMissing
    | IntentIncomplete         // an adopted, incomplete deployment intent already exists
    | DeploymentCompleted      // deployment intent is already completed
    | OperationChanged         // the active record and its operation record differ
    | ChainInvalid             // supersession chain is invalid
    | EdgeConflict             // recovery action may not supersede the active action
    | ReboundChanged           // intent rebound predecessor changed
    | ProofMissing
    | ProofBindingChanged
    | NotRecoverable
    | WrongGeneration          // readiness belongs to a different code generation
    | PartialHandoff           // a partial handoff cannot publish a completed proof

  /** How a step ended: done, refused by the protocol, failed with an error, or the process died. */
  datatype Status = Done | Refused(why: Refusal) | Failed | Crashed {
    predicate IsFailure() { !Done? }

    function PropagateFailure(): Status
      requires IsFailure()
    {
      this
    }
  }

  predicate Broken(s: Status) { s == Failed || s == Crashed }

  /** The durable files below the deployment lock, and launchd. */
  class Host {
    const labels: seq<Label>
    var stable: Option<Record>
    var operations: map<OperationId, Record>
    var proofs: map<OperationId, Record>
    var bootouts: map<(OperationId, Label), BootoutIntent>
    var intent: Option<Intent>
    var loaded: set<Label>

    function State(): Store
      reads this
    {
      Store(stable, operations, proofs, bootouts, intent, loaded)
    }

    ghost predicate Valid()
      reads this
    {
      |labels| > 0 && Distinct(labels) && Inv(State(), SetOf(labels))
    }

    /** A first installation: every daemon is loaded and nothing has been recorded. */
    constructor (labels: seq<Label>)
      requires |labels| > 0 && Distinct(labels)
      ensures Valid() && this.labels == labels
      ensures State() == Store(None, map[], map[], map[], None, SetOf(labels))
    {
      this.labels := labels;
      stable, operations, proofs, bootouts, intent := None, map[], map[], map[], None;
      loaded := SetOf(labels);
    }

    // ---- Durable writes and launchctl commands: each may fail with or without its effect ----

    method WriteOperation(r: Record) returns (s: Status)
      modifies this
      ensures s == Done || Broken(s)
      ensures State() == old(State()) || State() == WithOperation(old(State()), r)
      ensures s == Done ==> State() == WithOperation(old(State()), r)
    {
      var landed: bool := *;
      if landed {
        operations := operations[r.op := r];
        s := *;
        if s.Refused? { s := Failed; }
      } else {
        s := *;
        if s != Crashed { s := Failed; }
      }
    }

    method WriteStable(r: Record) returns (s: Status)
      modifies this
      ensures s == Done || Broken(s)
      ensures State() == old(State()) || State() == old(State()).(stable := Some(r))
      ensures s == Done ==> State() == old(State()).(stable := Some(r))
    {
      var landed: bool := *;
      if landed {
        stable := Some(r);
        s := *;
        if s.Refused? { s := Failed; }
      } else {
        s := *;
        if s != Crashed { s := Failed; }
      }
    }

    /** The operation record, then the active record. */
    method WriteRecord(r: Record) returns (s: Status)
      modifies this
      ensures s == Done || Broken(s)
      ensures Publishes(old(State()), State(), r)
      ensures s == Done ==> State() == WithRecord(old(State()), r)
    {
      s := WriteOperation(r);
      if s != Done { return; }
      s := WriteStable(r);
    }

    method WriteProof(r: Record) returns (s: Status)
      modifies this
      ensures s == Done || Broken(s)
      ensures State() == old(State()) || State() == old(State()).(proofs := old(proofs)[r.op := r])
      ensures s == Done ==> State() == old(State()).(proofs := old(proofs)[r.op := r])
    {
      var landed: bool := *;
      if landed {
        proofs := proofs[r.op := r];
        s := *;
        if s.Refused? { s := Failed; }
      } else {
        s := *;
        if s != Crashed { s := Failed; }
      }
    }

    /** A lock, a check or a query that may fail and changes nothing. */
    method Attempt() returns (s: Status)
      ensures s == Done || Broken(s)
    {
      s := *;
      if s.Refused? { s := Failed; }
    }

    method WriteIntent(i: Intent) returns (s: Status)
      modifies this
      ensures s == Done || Broken(s)
      ensures State() == old(State()) || State() == old(State()).(intent := Some(i))
      ensures s == Done ==> State() == old(State()).(intent := Some(i))
    {
      var landed: bool := *;
      if landed {
        intent := Some(i);
        s := *;
        if s.Refused? { s := Failed; }
      } else {
        s := *;
        if s != Crashed { s := Failed; }
      }
    }

    method WriteBootoutIntent(op: OperationId, l: Label) returns (s: Status)
      modifies this
      ensures s == Done || Broken(s)
      ensures var written := old(State()).(bootouts := old(bootouts)[(op, l) := BootoutIntent(op, l)]);
              && (State() == old(State()) || State() == written)
              && (s == Done ==> State() == written)
    {
      var landed: bool := *;
      if landed {
        bootouts := bootouts[(op, l) := BootoutIntent(op, l)];
        s := *;
        if s.Refused? { s := Failed; }
      } else {
        s := *;
        if s != Crashed { s := Failed; }
      }
    }

    method IsLoaded(l: Label) returns (s: Status, isLoaded: bool)
      ensures s == Done || Broken(s)
      ensures s == Done ==> isLoaded == (l in loaded)
    {
      s := *;
      if s.Refused? { s := Failed; }
      isLoaded := l in loaded;
    }

    method Bootout(l: Label) returns (s: Status)
      modifies this
      ensures s == Done || Broken(s)
      ensures State() == old(State()) || State() == old(State()).(loaded := old(loaded) - {l})
      ensures s == Done ==> State() == old(State()).(loaded := old(loaded) - {l})
    {
      var landed: bool := *;
      if landed {
        loaded := loaded - {l};
        s := *;
        if s.Refused? { s := Failed; }
      } else {
        s := *;
        if s != Crashed { s := Failed; }
      }
    }

    method Bootstrap(l: Label) returns (s: Status)
      modifies this
      ensures s == Done || Broken(s)
      ensures State() == old(State()) || State() == old(State()).(loaded := old(loaded) + {l})
      ensures s == Done ==> State() == old(State()).(loaded := old(loaded) + {l})
    {
      var landed: bool := *;
      if landed {
        loaded := loaded + {l};
        s := *;
        if s.Refused? { s := Failed; }
      } else {
        s := *;
        if s != Crashed { s := Failed; }
      }
    }

    // ---- Completed proofs ----

    /** `_read_strict_completed_handoff_proof`: in no reachable state does it find a mismatch. */
    method ReadStrictProof(active: Record) returns (s: Status, proof: Option<Record>)
      requires Valid() && stable == Some(active)
      ensures s == Done
      ensures proof == if active.op in proofs then Some(proofs[active.op]) else None
    {
      if active.op !in proofs {
        return Done, None;
      }
      var p := proofs[active.op];
      if active.op !in operations {
        return Refused(ProofBindingChanged), None;
      }
      var operation := operations[active.op];
      if !(if active.stage == Completed then active == p else active.SameBase(p)) {
        return Refused(ProofBindingChanged), None;
      }
      if !(if operation.stage == Completed then operation == p else operation.SameBase(p)) {
        return Refused(ProofBindingChanged), None;
      }
      return Done, Some(p);
    }

    /** `_converge_completed_handoff_state`: after any number of crashes between the three
        completion writes it makes the operation and the active record equal to the proof. */
    method Converge() returns (s: Status, converged: bool)
      requires Valid()
      modifies this
      ensures Valid() && (s == Done || Broken(s))
      ensures State() == old(State()).(stable := stable, operations := operations)
      ensures operations.Keys == old(operations).Keys && stable.Some? == old(stable).Some?
      ensures old(stable).None? || old(stable).value.op !in proofs ==> s == Done
      ensures s == Done ==> converged == (old(stable).Some? && old(stable).value.op in proofs)
      ensures s == Done && converged ==>
                && stable == Some(proofs[old(stable).value.op])
                && stable.value.op in operations && operations[stable.value.op] == stable.value
      ensures s == Done && !converged ==> State() == old(State())
    {
      converged := false;
      if stable.None? {
        return Done, false;
      }
      var active := stable.value;
      var status, proof := ReadStrictProof(active);
      if status != Done {
        return status, false;
      }
      if proof.None? {
        return Done, false;
      }
      ghost var all := SetOf(labels);
      CompletionConverges(State(), all);
      if operations[active.op] != proof.value {
        :- WriteOperation(proof.value);
      }
      CompletionConverges(State(), all);
      if active != proof.value {
        :- WriteStable(proof.value);
      }
      return Done, true;
    }

    // ---- Supersession ----

    /** `_persist_rebound_handoff_intent`: the intent follows the published successor. */
    method PersistRebound(predecessor: OperationId, successor: OperationId) returns (s: Status)
      requires Valid() && stable.Some? && intent.Some? && stable.value.op == successor
      requires Linked(State(), intent.value, stable.value)
      requires intent.value.handoff == successor || intent.value.handoff == predecessor
      modifies this
      ensures Valid() && (s == Done || Broken(s))
      ensures State() == old(State()).(intent := intent) && intent.Some?
      ensures Linked(State(), intent.value, stable.value)
      ensures intent == old(intent) || intent == old(intent).value.ReboundTo(successor)
      ensures s == Done ==> intent.value.handoff == successor
    {
      if intent.value.handoff == successor {
        return Done;
      }
      if intent.value.handoff != predecessor {
        return Refused(ReboundChanged);
      }
      IntentRebound(State(), SetOf(labels));
      var rebound := intent.value.ReboundTo(successor);
      if rebound.None? {
        return Refused(ReboundChanged);
      }
      ReboundAppends(intent.value, successor);
      s := WriteIntent(rebound.value);
    }

    predicate Torn()
      reads this
    {
      State().Torn()
    }

    predicate PreparedOnly()
      reads this
    {
      State().PreparedOnly()
    }

    /** A recovery of the same kind takes up the active operation, another kind supersedes it. */
    ghost predicate Chosen(recovery: Action, superseded: Option<OperationId>)
      reads this
    {
      && stable.Some? && intent.Some? && Linked(State(), intent.value, stable.value)
      && intent.value.handoff == stable.value.op && !Torn()
      && (stable.value.action == recovery ==> superseded == stable.value.supersedes)
      && (stable.value.action != recovery ==>
            superseded == Some(stable.value.op) && EdgeAllowed(recovery, stable.value.action))
    }

    /** Check the active record against its operation record and its chain, and finish a pending
        rebound. Refused exactly when the record is torn. */
    method ValidateAndRebind(r: Record) returns (s: Status)
      requires Valid() && stable == Some(r) && intent.Some? && Linked(State(), intent.value, r)
      requires intent.value.Semantic() != IntentCompleted
      modifies this
      ensures Valid() && State() == old(State()).(intent := intent) && intent.Some?
      ensures Linked(State(), intent.value, r) && intent.value.Semantic() != IntentCompleted
      ensures s == Done || Broken(s) || s == Refused(OperationChanged)
      ensures s == Refused(OperationChanged) <==> Torn()
      ensures s == Refused(OperationChanged) ==> State() == old(State())
      ensures intent == old(intent) || intent == old(intent).value.ReboundTo(r.op)
      ensures intent.value.prepared == old(intent).value.prepared
      ensures s == Done ==> intent.value.handoff == r.op
    {
      if operations[r.op] != r {
        return Refused(OperationChanged);
      }
      ReachableIsAcceptable(State(), SetOf(labels), r, intent.value);
      var accepted, validation := ValidatePhysicalChain(operations, proofs, r, intent.value);
      if !accepted {
        return Refused(ChainInvalid);
      }
      if validation != intent.value {
        ReboundAppends(intent.value, r.op);
        :- PersistRebound(intent.value.handoff, r.op);
      }
      s := Done;
    }

    /** `_incomplete_handoff_payload` for an active record: whether it still awaits recovery. */
    method AwaitsRecovery(r: Record, committed: bool) returns (s: Status, incomplete: bool)
      requires Valid() && stable == Some(r) && intent.Some?
      ensures s == Done || s == Refused(NotRecoverable)
      ensures s == Refused(NotRecoverable) <==>
                r.op in proofs && !committed && intent.value.Semantic() !in {AwaitingReadiness, IntentCompleted}
      ensures s == Done ==> incomplete == (r.op !in proofs || !committed)
    {
      var status, proof := ReadStrictProof(r);
      if status != Done {
        return status, false;
      }
      if proof.None? {
        if r.stage == Completed {
          return Refused(ProofMissing), false;
        }
        return Done, true;
      }
      if committed {
        return Done, false;
      }
      if intent.value.Semantic() != AwaitingReadiness && intent.value.Semantic() != IntentCompleted {
        return Refused(NotRecoverable), false;
      }
      return Done, true;
    }

    /** `_superseding_handoff_operation_id`: which operation a recovery supersedes. A pending
        rebound is finished first. It is refused for a torn record, a completed deployment or a
        forbidden recovery, and never because the chain is broken. `committed` tells whether the
        release commit of the active operation exists. */
    method SupersedingOperation(recovery: Action, committed: bool) returns (s: Status, superseded: Option<OperationId>)
      requires Valid() && recovery != Deploy
      modifies this
      ensures Valid() && State() == old(State()).(intent := intent)
      ensures intent == old(intent) ||
              (&& stable.Some? && old(intent).Some? && intent.Some?
               && intent == old(intent).value.ReboundTo(stable.value.op))
      ensures s.Refused? ==>
                s.why in {IntentMissing, DeploymentCompleted, NotRecoverable, OperationChanged, EdgeConflict}
      ensures s == Refused(OperationChanged) <==> old(State().Stuck(committed))
      ensures s == Refused(OperationChanged) ==> State() == old(State())
      ensures s == Done ==> intent.Some? && intent.value.Semantic() != IntentCompleted
      ensures s == Done && PreparedOnly() ==> superseded == Some(intent.value.handoff)
      ensures s == Done && !PreparedOnly() ==>
                if stable.Some? && (stable.value.op !in proofs || !committed)
                then Chosen(recovery, superseded) else superseded.None?
      ensures s == Refused(IntentMissing) <==> old(intent).None?
      ensures s == Refused(DeploymentCompleted)
         <==> old(intent).Some? && old(intent).value.Semantic() == IntentCompleted
      ensures s == Refused(EdgeConflict) ==>
                stable.Some? && stable.value.action != recovery && !EdgeAllowed(recovery, stable.value.action)
      ensures old(State().Repeats(recovery)) ==> !s.Refused? && stable.value.supersedes.value in operations
      ensures s == Done && !PreparedOnly() && stable.Some? && stable.value.op in proofs && !committed ==>
                intent == old(intent) && intent.value.Semantic() == AwaitingReadiness && !intent.value.prepared
      ensures Recoverable(old(State()), recovery) ==> Recoverable(State(), recovery) && (!Torn() ==> !s.Refused?)
    {
      superseded := None;
      if intent.None? {
        return Refused(IntentMissing), None;
      }
      if intent.value.Semantic() == IntentCompleted {
        return Refused(DeploymentCompleted), None;
      }
      if PreparedOnly() {
        if intent.value.Semantic() != IntentPlanned {
          return Refused(NotRecoverable), None;
        }
        return Done, Some(intent.value.handoff);
      }
      if stable.None? {
        return Done, None;
      }
      var r := stable.value;
      var incomplete :- AwaitsRecovery(r, committed);
      if !incomplete {
        return Done, None;
      }
      :- ValidateAndRebind(r);
      if r.target != intent.value.TargetOf(r.action) {
        return Refused(BindingChanged), None;
      }
      if r.action == recovery {
        return Done, r.supersedes;
      }
      if !EdgeAllowed(recovery, r.action) {
        return Refused(EdgeConflict), None;
      }
      return Done, Some(r.op);
    }
  }
}
