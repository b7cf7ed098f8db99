/**
 The durable records of the Lab launchd handoff
 (scripts/bootstrap-production-deploy.py, src/rquant/release_generation.py).

 Label lists are kept in the fixed label order without repeats, so a set stands for each.
 */
module HandoffRecords {
  import opened Basics

  type Label = string
  type Sha = string
  type OperationId = nat

  datatype Stage = Planned | Stopping | Stopped | Restarting | Aborted | Completed

  datatype Action = Deploy | Resume | Rollback

  datatype Generation = Generation(operation: string, environment: string, code: Sha)

  datatype Record = Record(
    op: OperationId,
    stage: Stage,
    labels: set<Label>,
    stopped: set<Label>,
    restarted: set<Label>,
    target: Sha,
    action: Action,
    supersedes: Option<OperationId>,
    generation: Option<Generation>,
    updatedAt: int)
  {
    /** What `LabHandoffRecord.validate` accepts. */
    predicate WellFormed() {
      && labels != {}
      && stopped <= labels
      && restarted <= labels
      && (action == Deploy ==> supersedes.None?)
      && (action != Deploy ==> supersedes.Some? && supersedes.value != op)
      && (stage == Completed <==> generation.Some?)
      && match stage
         case Planned => stopped == {} && restarted == {}
         case Stopping => restarted == {}
         case Stopped => stopped == labels && restarted == {}
         case Restarting => true
         case Aborted => action == Deploy && restarted == labels
         case Completed => stopped == labels && restarted == labels
    }

    /** The fields an operation keeps for its whole life. */
    predicate SameBinding(that: Record) {
      op == that.op && labels == that.labels && target == that.target && action == that.action &&
      supersedes == that.supersedes
    }

    /** The fields a completed proof must share with an earlier record of its operation. */
    predicate SameBase(that: Record) {
      SameBinding(that) && stopped == that.stopped && restarted == that.restarted
    }
  }

  datatype BootoutIntent = BootoutIntent(op: OperationId, daemon: Label)

  /** `validate_lab_handoff_supersede_action`. */
  predicate EdgeAllowed(action: Action, superseded: Action) {
    match action
    case Deploy => false
    case Resume => superseded == Deploy
    case Rollback => true
  }

  // ---- The deployment intent and its stage history ----

  datatype IntentStage = IntentPlanned | InProgress | AwaitingReadiness | RecoveryStarted | IntentCompleted

  datatype Event = Entered(stage: IntentStage) | Rebound(previous: OperationId, next: OperationId)

  datatype Intent = Intent(
    initial: OperationId,
    handoff: OperationId,
    previous: Sha,
    target: Sha,
    prepared: bool,
    history: seq<Event>)
  {
    function Semantic(): IntentStage {
      LastStage(history)
    }

    /** The operations this intent has been bound to, oldest first. */
    function Chain(): (c: seq<OperationId>)
      ensures |c| > 0
    {
      [initial] + Rebounds(history)
    }

    predicate LastIsRecovery() {
      |history| > 0 && history[|history| - 1] == Entered(RecoveryStarted)
    }

    /** `advance(stage="recovery_started")`: refused once the deployment is completed. */
    function AdvanceToRecovery(): Option<Intent> {
      if Semantic() == IntentCompleted then None
      else Some(this.(history := history + [Entered(RecoveryStarted)]))
    }

    /** `rebind_handoff`: only right after a recovery event, and only to another operation. */
    function RebindHandoff(op: OperationId): Option<Intent> {
      if !LastIsRecovery() || Semantic() != RecoveryStarted || op == handoff then None
      else Some(this.(handoff := op, history := history + [Rebound(handoff, op)]))
    }

    /** The rebound intent of `_persist_rebound_handoff_intent`. */
    function ReboundTo(op: OperationId): Option<Intent> {
      var base := if LastIsRecovery() then Some(this) else AdvanceToRecovery();
      if base.None? then None else base.value.RebindHandoff(op)
    }

    /** The commit the handoff of `action` must restore. */
    function TargetOf(action: Action): Sha {
      if action == Rollback then previous else target
    }
  }

  function LastStage(history: seq<Event>): IntentStage {
    if |history| == 0 then IntentPlanned
    else
      match history[|history| - 1]
      case Entered(s) => s
      case Rebound(_, _) => LastStage(history[..|history| - 1])
  }

  function Rebounds(history: seq<Event>): seq<OperationId> {
    if |history| == 0 then []
    else
      Rebounds(history[..|history| - 1]) +
      match history[|history| - 1]
      case Entered(_) => []
      case Rebound(_, next) => [next]
  }

  lemma ReboundsStep(history: seq<Event>, e: Event)
    ensures Rebounds(history + [e]) == Rebounds(history) + if e.Rebound? then [e.next] else []
  {
    assert (history + [e])[..|history|] == history;
  }

  lemma ReboundAppends(i: Intent, op: OperationId)
    requires i.Semantic() != IntentCompleted && op != i.handoff
    ensures i.ReboundTo(op).Some?
    ensures var j := i.ReboundTo(op).value;
            && j.Chain() == i.Chain() + [op] && j.handoff == op && j.Semantic() == RecoveryStarted
            && j.previous == i.previous && j.target == i.target && j.initial == i.initial
            && j.prepared == i.prepared
  {
    var base := if i.LastIsRecovery() then i else i.AdvanceToRecovery().value;
    assert base.Chain() == i.Chain() by {
      if !i.LastIsRecovery() {
        assert base.history[..|base.history| - 1] == i.history;
      }
    }
    var j := i.ReboundTo(op).value;
    assert j.history[..|j.history| - 1] == base.history;
  }

  lemma ReboundKeeps(i: Intent, op: OperationId)
    requires i.ReboundTo(op).Some?
    ensures i.Semantic() != IntentCompleted && op != i.handoff
    ensures var j := i.ReboundTo(op).value;
            && j.Chain() == i.Chain() + [op] && j.handoff == op && j.Semantic() == RecoveryStarted
            && j.previous == i.previous && j.target == i.target && j.prepared == i.prepared
  {
    ReboundAppends(i, op);
  }

  // ---- The Lab daemons, in the order in which they are stopped and restarted ----

  const SCHEDULER := "com.roxor.rquant-lab-scheduler"
  const WORKER := "com.roxor.rquant-lab-worker"
  const FINALIZER := "com.roxor.rquant-lab-finalizer"
  const DAEMONS: set<Label> := {SCHEDULER, WORKER, FINALIZER}

  /** What stopping every daemon leaves behind. */
  function AllBootedOut(op: OperationId): map<(OperationId, Label), BootoutIntent> {
    map[(op, SCHEDULER) := BootoutIntent(op, SCHEDULER), (op, WORKER) := BootoutIntent(op, WORKER),
        (op, FINALIZER) := BootoutIntent(op, FINALIZER)]
  }
}
