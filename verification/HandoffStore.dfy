/**
 The durable state of the Lab launchd handoff together with the daemons launchd holds
 loaded, the invariant every protocol step keeps, and the effect of each durable write on it.
 */
module HandoffStore {
  import opened Basics
  import opened HandoffRecords

  datatype Store = Store(
    stable: Option<Record>,                               // the active handoff record
    operations: map<OperationId, Record>,                 // one record per operation
    proofs: map<OperationId, Record>,                     // completed proofs
    bootouts: map<(OperationId, Label), BootoutIntent>,   // per-label bootout intents
    intent: Option<Intent>,                               // the deployment intent
    loaded: set<Label>)                                   // labels launchd holds loaded
  {
    /** The active record and its operation record differ: a crash fell between their writes. */
    predicate Torn() {
      stable.Some? && stable.value.op in operations && operations[stable.value.op] != stable.value
    }

    /** A prepared intent whose operation is not the active record. */
    predicate PreparedOnly() {
      intent.Some? && intent.value.prepared && (stable.None? || stable.value.stage == Completed)
    }

    /** The active operation is a proven recovery of this kind whose intent awaits readiness. */
    predicate Repeats(recovery: Action) {
      && stable.Some? && intent.Some? && !intent.value.prepared && stable.value.op in proofs
      && stable.value.action == recovery != Deploy && intent.value.Semantic() == AwaitingReadiness && !Torn()
    }

    /** A recovery that has to validate the active operation finds it torn. */
    predicate Stuck(committed: bool) {
      && intent.Some? && intent.value.Semantic() != IntentCompleted && !PreparedOnly() && Torn()
      && (stable.value.op in proofs ==> !committed && intent.value.Semantic() == AwaitingReadiness)
    }
  }

  /** What an invocation sets out to do; the operation a formal rollback supersedes is given. */
  datatype Plan = Plan(action: Action, target: Sha, previous: Sha, given: Option<OperationId>, committed: bool)

  /** Exactly when a recovery publishes a record that the intent cannot follow: the active operation is a
      proven, uncommitted recovery of the same kind, or the superseded operation was given and the intent
      is already completed. */
  predicate Forks(s: Store, plan: Plan) {
    && plan.action != Deploy && s.stable.Some? && s.intent.Some? && !s.intent.value.prepared
    && s.stable.value.op in s.proofs && plan.target == s.intent.value.TargetOf(plan.action)
    && if plan.given.None? then !plan.committed && s.Repeats(plan.action)
       else s.intent.value.Semantic() == IntentCompleted
  }

  /** Exactly when a recovery is refused for a torn record. */
  predicate Refuses(s: Store, plan: Plan) {
    && plan.action != Deploy && plan.given.None? && s.intent.Some?
    && plan.target == s.intent.value.TargetOf(plan.action) && s.Stuck(plan.committed)
  }

  /** A deployment begins with every label loaded: until its intent is prepared, no intent names it. */
  predicate BeginsAfresh(s: Store, labels: set<Label>, plan: Plan) {
    plan.action == Deploy && s.loaded == labels && (s.stable.Some? ==> s.stable.value.op in s.proofs)
  }

  /** A recovery supersedes an operation that is still incomplete and has labels unloaded. */
  predicate SupersedesUnloaded(s: Store, labels: set<Label>, plan: Plan) {
    && plan.action != Deploy && s.loaded != labels && s.stable.Some? && s.intent.Some?
    && s.stable.value.op !in s.proofs && plan.target == s.intent.value.TargetOf(plan.action)
    && EdgeAllowed(plan.action, s.stable.value.action)
    && if plan.given.None? then !s.Torn() && s.stable.value.action != plan.action
       else s.intent.value.handoff == s.stable.value.op
  }

  /** The stores in which an invocation can fork the chain or be followed by an unsafe restart. */
  predicate AtRisk(s: Store, labels: set<Label>, plan: Plan) {
    Forks(s, plan) || BeginsAfresh(s, labels, plan) || SupersedesUnloaded(s, labels, plan)
  }

  // ---- The supersession chain against the intent's rebound history ----

  /** The `k`-th operation of `h` is stored, bound to the intent, and supersedes the one before it. */
  ghost predicate Ancestor(s: Store, h: seq<OperationId>, k: nat, i: Intent)
    requires k < |h|
  {
    && h[k] in s.operations
    && var x := s.operations[h[k]];
    && x.target == i.TargetOf(x.action)
    && (h[k] in s.proofs ==> s.proofs[h[k]] == x)
    && (k == 0 ==> x.action == Deploy)
    && (k > 0 ==>
          && h[k - 1] in s.operations
          && x.supersedes == Some(h[k - 1])
          && EdgeAllowed(x.action, s.operations[h[k - 1]].action))
  }

  /** `r` ends the chain of operations `h`, root first. */
  ghost predicate ChainAlong(s: Store, r: Record, h: seq<OperationId>, i: Intent) {
    && |h| > 0 && h[|h| - 1] == r.op && Distinct(h)
    && (forall k :: 0 <= k < |h| - 1 ==> Ancestor(s, h, k, i))
    && r.target == i.TargetOf(r.action)
    && (|h| == 1 ==> r.action == Deploy)
    && (|h| > 1 ==> 
          && r.supersedes == Some(h[|h| - 2])
          && h[|h| - 2] in s.operations
          && EdgeAllowed(r.action, s.operations[h[|h| - 2]].action))
  }

  /** The intent names the active record, or the record that it directly supersedes. */
  ghost predicate Linked(s: Store, i: Intent, r: Record) {
    && (r.op in s.proofs ==> !i.prepared && i.handoff == r.op)
    && (i.Semantic() == IntentCompleted ==> r.op in s.proofs)
    && LinkedChain(s, i, r)
  }

  ghost predicate LinkedChain(s: Store, i: Intent, r: Record) {
    || (i.handoff == r.op && ChainAlong(s, r, i.Chain(), i))
    || (Pending(s, i, r) && ChainAlong(s, r, i.Chain() + [r.op], i))
  }

  ghost predicate Pending(s: Store, i: Intent, r: Record) {
    r.supersedes == Some(i.handoff) && i.handoff != r.op && i.Semantic() != IntentCompleted
  }

  ghost predicate IsRoot(x: Record, i: Intent) {
    x.action == Deploy && x.target == i.target && x.stage != Completed
  }

  /** A prepared intent whose operation has not become the active record. */
  ghost predicate Unstarted(s: Store, i: Intent) {
    && i.prepared && i.initial == i.handoff && i.history == [Entered(IntentPlanned)]
    && i.handoff !in s.proofs
    && (i.handoff in s.operations ==> IsRoot(s.operations[i.handoff], i))
  }

  ghost predicate InStep(s: Store) {
    match s.stable
    case None => s.intent.Some? ==> Unstarted(s, s.intent.value)
    case Some(r) =>
      && s.intent.Some?
      && var i := s.intent.value;
         Linked(s, i, r) || (r.stage == Completed && r.op != i.handoff && Unstarted(s, i))
  }

  // ---- Records, proofs and physical evidence ----

  ghost predicate Filed(m: map<OperationId, Record>, labels: set<Label>) {
    forall op :: op in m ==> m[op].op == op && m[op].WellFormed() && m[op].labels == labels
  }

  ghost predicate RecordsOk(s: Store, labels: set<Label>) {
    && Filed(s.operations, labels)
    && Filed(s.proofs, labels)
    && (forall op :: op in s.proofs ==> s.proofs[op].stage == Completed)
    && (s.stable.Some? ==>
          var r := s.stable.value;
          r.WellFormed() && r.labels == labels && r.op in s.operations && s.operations[r.op].SameBinding(r))
  }

  /** `x` is the proof, or an earlier record that the proof agrees with. */
  ghost predicate Settles(x: Record, proof: Record) {
    x == proof || (x.stage != Completed && x.SameBase(proof))
  }

  ghost predicate ProofsAgree(s: Store) {
    s.stable.Some? ==>
      var r := s.stable.value;
      if r.op in s.proofs then
        Settles(r, s.proofs[r.op]) && (r.op in s.operations ==> Settles(s.operations[r.op], s.proofs[r.op]))
      else
        r.stage != Completed && (r.op in s.operations ==> s.operations[r.op].stage != Completed)
  }

  /** Every unloaded label is durably stopped or has a bootout intent of the same operation. */
  predicate EvidenceFor(s: Store, r: Record) {
    && (forall l :: l in r.labels && l !in s.loaded ==> l in r.stopped || (r.op, l) in s.bootouts)
    && r.restarted <= s.loaded
  }

  ghost predicate Evidence(s: Store, labels: set<Label>) {
    && s.loaded <= labels
    && (forall k :: k in s.bootouts ==> s.bootouts[k] == BootoutIntent(k.0, k.1))
    && (s.stable.None? ==> s.loaded == labels)
    && (s.stable.Some? ==> EvidenceFor(s, s.stable.value))
  }

  ghost predicate Inv(s: Store, labels: set<Label>) {
    RecordsOk(s, labels) && ProofsAgree(s) && Evidence(s, labels) && InStep(s)
  }

  /** The stop loop is the only thing that has moved a label: nothing recorded as stopped is loaded. */
  ghost predicate StopPhase(s: Store) {
    s.stable.Some? && s.stable.value.restarted == {} && s.stable.value.stopped !! s.loaded
  }

  /** A deployment that has not begun, or of which only the stop loop has moved labels. */
  ghost predicate DeployInProgress(s: Store, target: Sha, previous: Sha) {
    && (s.intent.Some? ==>
          && s.intent.value.prepared
          && s.intent.value.target == target && s.intent.value.previous == previous)
    && (s.stable.Some? ==>
          && StopPhase(s) && s.stable.value.op !in s.proofs
          && s.stable.value.action == Deploy && s.stable.value.target == target
          && s.intent.Some? && s.intent.value.handoff == s.stable.value.op)
  }

  /** A recovery has an incomplete operation to take up or to supersede. */
  ghost predicate Recoverable(s: Store, recovery: Action) {
    && recovery != Deploy && s.stable.Some? && s.stable.value.op !in s.proofs
    && s.intent.Some? && Linked(s, s.intent.value, s.stable.value)
    && (s.stable.value.action == recovery || EdgeAllowed(recovery, s.stable.value.action))
  }

  /** A recovery that has not begun, or of which only the stop loop has moved labels. */
  ghost predicate RecoveryInProgress(s: Store, target: Sha, recovery: Action) {
    && Recoverable(s, recovery) && target == s.intent.value.TargetOf(recovery)
    && (s.stable.value.action == recovery ==> StopPhase(s))
  }

  // ---- Publishing a record: operation first, then stable ----

  predicate Continues(s: Store, p: Record) {
    s.stable.Some? && s.stable.value.SameBinding(p)
  }

  ghost predicate StartsRoot(s: Store, p: Record) {
    && s.intent.Some? && Unstarted(s, s.intent.value)
    && p.op == s.intent.value.handoff && IsRoot(p, s.intent.value)
    && (s.stable.Some? ==> s.stable.value.stage == Completed && s.stable.value.op != p.op)
  }

  ghost predicate Succeeds(s: Store, p: Record) {
    && s.stable.Some? && s.intent.Some?
    && var a, i := s.stable.value, s.intent.value;
    && i.handoff == a.op && ChainAlong(s, a, i.Chain(), i) && i.Semantic() != IntentCompleted
    && p.supersedes == Some(a.op) && p.op !in i.Chain()
    && EdgeAllowed(p.action, a.action) && p.target == i.TargetOf(p.action)
    && (p.op in s.operations ==> s.operations[p.op].SameBinding(p))
    && (a.op in s.proofs ==> a.op in s.operations && s.operations[a.op] == s.proofs[a.op])
  }

  ghost predicate Publishable(s: Store, p: Record, labels: set<Label>) {
    && p.WellFormed() && p.labels == labels && p.stage != Completed && p.op !in s.proofs
    && EvidenceFor(s, p)
    && (Continues(s, p) || StartsRoot(s, p) || Succeeds(s, p))
  }

  function WithOperation(s: Store, p: Record): Store {
    s.(operations := s.operations[p.op := p])
  }

  /** `t` holds the same records as `s`, except perhaps those of operation `x`. */
  ghost predicate SameExcept(s: Store, t: Store, x: OperationId) {
    && (forall op :: op in s.operations && op != x ==> op in t.operations && t.operations[op] == s.operations[op])
    && (forall op :: op in t.proofs && op != x ==> op in s.proofs && t.proofs[op] == s.proofs[op])
  }

  /** A chain does not look at the stored records of an operation outside its ancestors. */
  lemma ChainKept(s: Store, t: Store, x: OperationId, r: Record, h: seq<OperationId>, i: Intent)
    requires ChainAlong(s, r, h, i) && SameExcept(s, t, x)
    requires x !in h[..|h| - 1]
    ensures ChainAlong(t, r, h, i)
  {
    assert forall k :: 0 <= k < |h| - 1 ==> h[k] in h[..|h| - 1];
    forall k | 0 <= k < |h| - 1
      ensures Ancestor(t, h, k, i)
    {
      assert Ancestor(s, h, k, i);
      assert k > 0 ==> h[k - 1] in h[..|h| - 1];
    }
    if |h| > 1 {
      assert Ancestor(s, h, |h| - 2, i);
    }
  }

  lemma EndsOutsideAncestors(h: seq<OperationId>)
    requires |h| > 0 && Distinct(h)
    ensures h[|h| - 1] !in h[..|h| - 1]
  {
  }

  lemma OperationPublished(s: Store, p: Record, labels: set<Label>)
    requires Inv(s, labels) && Publishable(s, p, labels)
    ensures Inv(WithOperation(s, p), labels)
  {
    var t := WithOperation(s, p);
    if StartsRoot(s, p) {
      assert Unstarted(t, t.intent.value);
    } else {
      var r, i := s.stable.value, s.intent.value;
      if i.handoff == r.op && ChainAlong(s, r, i.Chain(), i) {
        EndsOutsideAncestors(i.Chain());
        ChainKept(s, t, p.op, r, i.Chain(), i);
      } else if Linked(s, i, r) {
        EndsOutsideAncestors(i.Chain() + [r.op]);
        ChainKept(s, t, p.op, r, i.Chain() + [r.op], i);
      }
    }
  }

  /** The chain of a record stays the chain of a later record of the same operation. */
  lemma ChainOfSameOperation(s: Store, t: Store, r: Record, p: Record, h: seq<OperationId>, i: Intent)
    requires ChainAlong(s, r, h, i) && r.SameBinding(p)
    requires t.operations == s.operations && t.proofs == s.proofs
    ensures ChainAlong(t, p, h, i)
  {
    EndsOutsideAncestors(h);
    ChainKept(s, t, r.op, r, h, i);
  }

  /** A successor of the chain's last record extends the chain by one. */
  lemma ChainExtended(s: Store, a: Record, p: Record, i: Intent)
    requires ChainAlong(s, a, i.Chain(), i) && i.handoff == a.op
    requires a.op in s.operations && s.operations[a.op].SameBinding(a)
    requires a.op in s.proofs ==> s.operations[a.op] == s.proofs[a.op]
    requires p.supersedes == Some(a.op) && p.op !in i.Chain()
    requires EdgeAllowed(p.action, a.action) && p.target == i.TargetOf(p.action)
    ensures ChainAlong(s, p, i.Chain() + [p.op], i)
  {
    var c, h := i.Chain(), i.Chain() + [p.op];
    forall k | 0 <= k < |h| - 1
      ensures Ancestor(s, h, k, i)
    {
      assert h[k] == c[k];
      assert k > 0 ==> h[k - 1] == c[k - 1];
      if k < |c| - 1 {
        assert Ancestor(s, c, k, i);
      }
      if k == |c| - 1 && k > 0 {
        assert Ancestor(s, c, k - 1, i);
      }
    }
    assert Distinct(h);
  }

  lemma StablePublished(s: Store, p: Record, labels: set<Label>)
    requires Inv(s, labels) && Publishable(s, p, labels)
    requires p.op in s.operations && s.operations[p.op] == p
    ensures Inv(s.(stable := Some(p)), labels)
  {
    var t := s.(stable := Some(p));
    var i := s.intent.value;
    if Continues(s, p) {
      var r := s.stable.value;
      if i.handoff == r.op && ChainAlong(s, r, i.Chain(), i) {
        ChainOfSameOperation(s, t, r, p, i.Chain(), i);
      } else {
        assert Linked(s, i, r);
        ChainOfSameOperation(s, t, r, p, i.Chain() + [r.op], i);
      }
    } else if StartsRoot(s, p) {
      assert i.history[..|i.history| - 1] == [] && Rebounds([]) == [];
      assert i.Chain() == [i.initial];
      assert ChainAlong(t, p, i.Chain(), i);
    } else {
      ChainExtended(s, s.stable.value, p, i);
      EndsOutsideAncestors(i.Chain() + [p.op]);
      ChainKept(s, t, p.op, p, i.Chain() + [p.op], i);
    }
  }

  function WithRecord(s: Store, p: Record): Store {
    WithOperation(s, p).(stable := Some(p))
  }

  /** `t` is `s` after none, one or both writes of record `p`. */
  ghost predicate Publishes(s: Store, t: Store, p: Record) {
    t == s || t == WithOperation(s, p) || t == WithRecord(s, p)
  }

  /** Whichever of its writes land, publishing a record keeps the invariant; once both have,
      the record continues the active operation. */
  lemma RecordPublished(s: Store, t: Store, p: Record, labels: set<Label>)
    requires Inv(s, labels) && Publishable(s, p, labels) && Publishes(s, t, p)
    ensures Inv(t, labels)
    ensures Continues(s, p) ==> Continues(t, p)
    ensures t == WithRecord(s, p) ==> Continues(t, p)
  {
    OperationPublished(s, p, labels);
    var m := WithOperation(s, p);
    assert Publishable(m, p, labels) by {
      StillPublishable(s, p, labels);
    }
    StablePublished(m, p, labels);
  }

  /** What may be published may be published again, whichever of the writes landed. */
  lemma RemainsPublishable(s: Store, t: Store, p: Record, labels: set<Label>)
    requires Inv(s, labels) && Publishable(s, p, labels) && Publishes(s, t, p)
    ensures Publishable(t, p, labels)
  {
    StillPublishable(s, p, labels);
    RecordPublished(s, t, p, labels);
  }

  lemma StillPublishable(s: Store, p: Record, labels: set<Label>)
    requires Inv(s, labels) && Publishable(s, p, labels)
    ensures Publishable(WithOperation(s, p), p, labels)
  {
    var m := WithOperation(s, p);
    if !Continues(s, p) && !StartsRoot(s, p) {
      var a, i := s.stable.value, s.intent.value;
      assert p.op !in i.Chain()[..|i.Chain()| - 1];
      ChainKept(s, m, p.op, a, i.Chain(), i);
      assert a.op == i.Chain()[|i.Chain()| - 1];
    }
  }

  /** The intent catches up with the published successor. */
  lemma IntentRebound(s: Store, labels: set<Label>)
    requires Inv(s, labels) && s.stable.Some? && s.intent.Some?
    requires Linked(s, s.intent.value, s.stable.value) && s.intent.value.handoff != s.stable.value.op
    ensures var r, i := s.stable.value, s.intent.value;
            && i.ReboundTo(r.op).Some?
            && var t := s.(intent := i.ReboundTo(r.op));
            && Inv(t, labels)
            && ChainAlong(t, r, t.intent.value.Chain(), t.intent.value)
  {
    var r, i := s.stable.value, s.intent.value;
    ReboundAppends(i, r.op);
    var j := i.ReboundTo(r.op).value;
    var t := s.(intent := Some(j));
    var h := j.Chain();
    forall k | 0 <= k < |h| - 1
      ensures Ancestor(t, h, k, j)
    {
      assert Ancestor(s, h, k, i);
    }
    if |h| > 1 {
      assert Ancestor(s, h, |h| - 2, i);
    }
  }

  /** A new deployment may prepare its intent while no handoff is in progress. */
  lemma IntentStarted(s: Store, i: Intent, labels: set<Label>)
    requires Inv(s, labels)
    requires s.stable.Some? ==> s.stable.value.stage == Completed && s.stable.value.op != i.handoff
    requires i.prepared && i.initial == i.handoff && i.history == [Entered(IntentPlanned)]
    requires i.handoff !in s.operations && i.handoff !in s.proofs
    ensures Inv(s.(intent := Some(i)), labels) && Unstarted(s.(intent := Some(i)), i)
  {
  }

  // ---- The first record of an operation that is not the active one ----

  /** `p` belongs to a deployment that has drawn its operation and published nothing of it. */
  ghost predicate NewDeployment(s: Store, p: Record, labels: set<Label>) {
    && p.action == Deploy && s.loaded == labels
    && (s.stable.Some? ==> s.stable.value.stage == Completed && s.stable.value.op in s.proofs)
    && (s.intent.Some? && s.intent.value.handoff == p.op ==>
          Unstarted(s, s.intent.value) && p.target == s.intent.value.target)
  }

  /** `p` belongs to a recovery of the active operation that has not become active itself. */
  ghost predicate NewSuccessor(s: Store, p: Record) {
    && p.action != Deploy && s.stable.Some? && s.intent.Some?
    && var a, i := s.stable.value, s.intent.value;
    && Linked(s, i, a) && i.handoff == a.op && p.op !in i.Chain()
    && (p.op in s.operations ==> s.operations[p.op].SameBinding(p))
    && (a.op in s.proofs ==> a.op in s.operations && s.operations[a.op] == s.proofs[a.op])
    && (p.supersedes == Some(a.op) && i.Semantic() != IntentCompleted ==>
          EdgeAllowed(p.action, a.action) && p.target == i.TargetOf(p.action))
  }

  ghost predicate NotActive(s: Store, p: Record, labels: set<Label>) {
    && p.op !in s.proofs && p.restarted <= s.loaded && (s.stable.Some? ==> s.stable.value.op != p.op)
    && (NewDeployment(s, p, labels) || NewSuccessor(s, p))
  }

  /** The intent names the deployment, or can follow the recovery and every unloaded label is recorded
      as stopped. */
  predicate MayPublish(s: Store, p: Record) {
    && s.intent.Some?
    && if p.action == Deploy then s.intent.value.handoff == p.op
       else
         && p.supersedes == Some(s.intent.value.handoff) && s.intent.value.Semantic() != IntentCompleted
         && EvidenceFor(s, p)
  }

  /** Exactly then may its first record be published. */
  lemma FirstRecordExact(s: Store, p: Record, labels: set<Label>)
    requires Inv(s, labels) && NotActive(s, p, labels)
    requires p.WellFormed() && p.labels == labels && p.stage != Completed
    ensures MayPublish(s, p) ==> Publishable(s, p, labels)
    ensures Inv(WithRecord(s, p), labels) <==> MayPublish(s, p)
  {
    if MayPublish(s, p) {
      assert Publishable(s, p, labels);
      RecordPublished(s, WithRecord(s, p), p, labels);
    }
  }

  lemma MoreRestarted(s: Store, p: Record, l: Label, labels: set<Label>)
    requires p.stage == Restarting && p.labels == labels && l in labels && l in s.loaded
    ensures var q := p.(restarted := p.restarted + {l});
            && (q.WellFormed() ==> p.WellFormed()) && (Publishable(s, p, labels) ==> Publishable(s, q, labels))
  {}

  lemma MoreLoaded(s: Store, p: Record, l: Label, labels: set<Label>)
    requires Publishable(s, p, labels) && s.stable.Some?
    ensures Publishable(s.(loaded := s.loaded + {l}), p, labels)
  {
    var t := s.(loaded := s.loaded + {l});
    if Succeeds(s, p) {
      ChainKept(s, t, p.op, s.stable.value, s.intent.value.Chain(), s.intent.value);
    }
  }

  /** `x` differs from `p` in its restarted labels and its time only, and they are loaded. */
  predicate Variant(x: Record, p: Record, loaded: set<Label>) {
    x == p.(restarted := x.restarted, updatedAt := x.updatedAt) && x.restarted <= loaded
  }

  /** Between `s` and `t` only variants of `p` have been written. */
  ghost predicate Rewritten(s: Store, t: Store, p: Record) {
    && t == s.(operations := t.operations, stable := t.stable)
    && (forall o :: o != p.op ==>
          (o in t.operations <==> o in s.operations) && (o in s.operations ==> t.operations[o] == s.operations[o]))
    && (p.op in s.operations ==> p.op in t.operations)
    && (p.op in t.operations ==>
          || (p.op in s.operations && t.operations[p.op] == s.operations[p.op])
          || Variant(t.operations[p.op], p, s.loaded))
    && (t.stable == s.stable ||
        (&& t.stable.Some? && Variant(t.stable.value, p, s.loaded)
         && p.op in t.operations && Variant(t.operations[p.op], p, s.loaded)))
  }

  lemma RewrittenAgain(s: Store, t: Store, u: Store, p: Record)
    requires Rewritten(s, t, p) && Rewritten(t, u, p)
    ensures Rewritten(s, u, p)
  {}

  lemma PublishedIsRewritten(s: Store, t: Store, x: Record, p: Record)
    requires Publishes(s, t, x) && Variant(x, p, s.loaded)
    ensures Rewritten(s, t, p)
  {}

  /** However often they are rewritten, once the active record is one of them the invariant holds if
      and only if the first one could be published. */
  lemma RewrittenExact(s: Store, t: Store, p: Record, labels: set<Label>)
    requires Inv(s, labels) && NotActive(s, p, labels)
    requires p.WellFormed() && p.labels == labels && p.stage == Restarting
    requires Rewritten(s, t, p) && t.stable != s.stable
    ensures Inv(t, labels) <==> MayPublish(s, p)
  {
    var x, q := t.stable.value, t.operations[p.op];
    var u := WithRecord(s, x);
    FirstRecordExact(s, x, labels);
    assert t.operations == u.operations[p.op := q];
    assert t == WithOperation(u, q);
    if MayPublish(s, p) {
      RecordPublished(s, u, x, labels);
      OperationPublished(u, q, labels);
    }
  }

  // ---- A successor the intent cannot follow ----

  /** The record of an operation nothing refers to leaves the chain alone. */
  lemma OrphanFiled(s: Store, p: Record, labels: set<Label>)
    requires Inv(s, labels) && p.WellFormed() && p.labels == labels && p.op !in s.operations
    requires s.intent.Some? ==> p.op !in s.intent.value.Chain() && p.op != s.intent.value.handoff
    ensures Inv(WithOperation(s, p), labels)
  {
    var t := WithOperation(s, p);
    if s.stable.Some? {
      var r, i := s.stable.value, s.intent.value;
      if i.handoff == r.op && ChainAlong(s, r, i.Chain(), i) {
        ChainKept(s, t, p.op, r, i.Chain(), i);
      } else if Linked(s, i, r) {
        ChainKept(s, t, p.op, r, i.Chain() + [r.op], i);
      }
    }
  }

  /** Publishing a successor that does not supersede the operation the intent names, or whose
      intent is already completed, puts the two out of step. */
  lemma ForkOutOfStep(s: Store, p: Record, labels: set<Label>)
    requires Inv(s, labels) && s.stable.Some? && s.intent.Some? && p.stage != Completed
    requires s.intent.value.handoff == s.stable.value.op && p.op !in s.operations && p.op !in s.proofs
    requires p.supersedes != Some(s.stable.value.op) || s.intent.value.Semantic() == IntentCompleted
    ensures !InStep(WithRecord(s, p))
  {
  }

  /** A store in which this happens: a rollback of deployment 1 is complete but uncommitted, and a
      second rollback supersedes deployment 1 once more. */
  function ForkedRollbackStore(): Store {
    var all := DAEMONS;
    var deploy := Record(1, Stopped, all, all, {}, "new", Deploy, None, None, 0);
    var rollback := Record(2, Completed, all, all, all, "old", Rollback, Some(1), Some(Generation("g", "e", "old")), 1);
    var history := [Entered(IntentPlanned), Entered(RecoveryStarted), Rebound(1, 2), Entered(AwaitingReadiness)];
    Store(Some(rollback), map[1 := deploy, 2 := rollback], map[2 := rollback], AllBootedOut(1),
          Some(Intent(1, 2, "old", "new", false, history)), all)
  }

  lemma ForkedChain()
    ensures ForkedRollbackStore().intent.value.Chain() == [1, 2]
  {
    var start := [Entered(IntentPlanned)];
    var recovering := start + [Entered(RecoveryStarted)];
    var rebound := recovering + [Rebound(1, 2)];
    assert [] + [Entered(IntentPlanned)] == start;
    ReboundsStep([], Entered(IntentPlanned));
    ReboundsStep(start, Entered(RecoveryStarted));
    ReboundsStep(recovering, Rebound(1, 2));
    ReboundsStep(rebound, Entered(AwaitingReadiness));
    assert ForkedRollbackStore().intent.value.history == rebound + [Entered(AwaitingReadiness)];
  }

  lemma ForkedStoreInv()
    ensures Inv(ForkedRollbackStore(), DAEMONS)
  {
    var s := ForkedRollbackStore();
    var i := s.intent.value;
    ForkedChain();
    assert Ancestor(s, i.Chain(), 0, i);
    assert ChainAlong(s, s.stable.value, i.Chain(), i);
  }

  lemma SecondRollbackForks()
    ensures var s, all := ForkedRollbackStore(), DAEMONS;
            var p := Record(3, Planned, all, {}, {}, "old", Rollback, Some(1), None, 2);
            Inv(s, all) && p.WellFormed() && !InStep(WithRecord(s, p))
  {
    var s, all := ForkedRollbackStore(), DAEMONS;
    var p := Record(3, Planned, all, {}, {}, "old", Rollback, Some(1), None, 2);
    ForkedStoreInv();
    ForkOutOfStep(s, p, all);
  }

  // ---- What the deployer does to the intent between a handoff's stop and its restart ----

  /** Adopting a prepared intent and entering further stages leave the binding alone. */
  ghost predicate Advances(i: Intent, j: Intent) {
    && j == i.(prepared := j.prepared, history := j.history)
    && (j.prepared ==> i.prepared && j.history == i.history)
    && (j.history == i.history || exists stage :: j.history == i.history + [Entered(stage)] && stage != IntentCompleted)
  }

  lemma AdvancesKeepsChain(i: Intent, j: Intent)
    requires Advances(i, j) && i.Semantic() != IntentCompleted
    ensures j.Chain() == i.Chain() && j.Semantic() != IntentCompleted
  {
    if j.history != i.history {
      assert j.history[..|j.history| - 1] == i.history;
    }
  }

  lemma IntentAdvanced(s: Store, j: Intent, labels: set<Label>)
    requires Inv(s, labels) && s.stable.Some? && s.intent.Some? && Linked(s, s.intent.value, s.stable.value)
    requires Advances(s.intent.value, j) && s.intent.value.Semantic() != IntentCompleted
    ensures Inv(s.(intent := Some(j)), labels) && Linked(s.(intent := Some(j)), j, s.stable.value)
  {
    var i, r, t := s.intent.value, s.stable.value, s.(intent := Some(j));
    AdvancesKeepsChain(i, j);
    var h := if i.handoff == r.op then i.Chain() else i.Chain() + [r.op];
    forall k | 0 <= k < |h| - 1
      ensures Ancestor(t, h, k, j)
    {
      assert Ancestor(s, h, k, i);
    }
  }

  /** The deployment is completed only behind the proof of the operation the intent names. */
  lemma IntentFinished(s: Store, labels: set<Label>)
    requires Inv(s, labels) && s.stable.Some? && s.intent.Some? && Linked(s, s.intent.value, s.stable.value)
    requires s.stable.value.op in s.proofs
    ensures var j := s.intent.value.(history := s.intent.value.history + [Entered(IntentCompleted)]);
            Inv(s.(intent := Some(j)), labels)
  {
    var i, r := s.intent.value, s.stable.value;
    var j := i.(history := i.history + [Entered(IntentCompleted)]);
    var t := s.(intent := Some(j));
    assert j.history[..|j.history| - 1] == i.history;
    assert j.Chain() == i.Chain();
    forall k | 0 <= k < |i.Chain()| - 1
      ensures Ancestor(t, i.Chain(), k, j)
    {
      assert Ancestor(s, i.Chain(), k, i);
    }
  }

  // ---- One label: bootout intent, bootout, bootstrap ----

  lemma BootoutIntended(s: Store, op: OperationId, l: Label, labels: set<Label>)
    requires Inv(s, labels)
    ensures Inv(s.(bootouts := s.bootouts[(op, l) := BootoutIntent(op, l)]), labels)
  {
    LoadStateKeepsChain(s, s.(bootouts := s.bootouts[(op, l) := BootoutIntent(op, l)]));
  }

  /** Bootout evidence and loaded labels play no part in the supersession chain. */
  lemma LoadStateKeepsChain(s: Store, t: Store)
    requires InStep(s) && t == s.(bootouts := t.bootouts, loaded := t.loaded)
    ensures InStep(t)
  {
    if s.stable.Some? {
      var r, i := s.stable.value, s.intent.value;
      if i.handoff == r.op && ChainAlong(s, r, i.Chain(), i) {
        ChainOfSameOperation(s, t, r, r, i.Chain(), i);
      } else if Linked(s, i, r) {
        ChainOfSameOperation(s, t, r, r, i.Chain() + [r.op], i);
      }
    }
  }

  /** A label may be unloaded once its intent is durable and the active record does not claim it restarted. */
  lemma LabelUnloaded(s: Store, l: Label, labels: set<Label>)
    requires Inv(s, labels) && s.stable.Some?
    requires (s.stable.value.op, l) in s.bootouts && l !in s.stable.value.restarted
    ensures Inv(s.(loaded := s.loaded - {l}), labels)
  {
    LoadStateKeepsChain(s, s.(loaded := s.loaded - {l}));
  }

  lemma LabelLoaded(s: Store, l: Label, labels: set<Label>)
    requires Inv(s, labels) && l in labels && s.stable.Some?
    ensures Inv(s.(loaded := s.loaded + {l}), labels)
  {
    LoadStateKeepsChain(s, s.(loaded := s.loaded + {l}));
  }

  // ---- Completion: proof, then operation, then stable ----

  /** A completed record of the active operation that agrees with what was recorded last. */
  ghost predicate Completes(s: Store, p: Record, labels: set<Label>) {
    && s.stable.Some? && s.stable.value.op == p.op && p.op in s.operations
    && p.stage == Completed && p.WellFormed() && p.labels == labels
    && p.op !in s.proofs
    && s.stable.value.SameBase(p) && s.operations[p.op].SameBase(p)
    && s.intent.Some? && !s.intent.value.prepared && s.intent.value.handoff == p.op
  }

  /** The proof of a completed handoff says that every label was stopped and restarted, and
      writing it first keeps the invariant. */
  lemma ProofPublished(s: Store, p: Record, labels: set<Label>)
    requires Inv(s, labels) && Completes(s, p, labels)
    ensures p.stopped == p.restarted == labels
    ensures Inv(s.(proofs := s.proofs[p.op := p]), labels)
  {
    var t := s.(proofs := s.proofs[p.op := p]);
    var r, i := s.stable.value, s.intent.value;
    assert Linked(s, i, r);
    if i.handoff == r.op && ChainAlong(s, r, i.Chain(), i) {
      EndsOutsideAncestors(i.Chain());
      ChainKept(s, t, r.op, r, i.Chain(), i);
    } else {
      EndsOutsideAncestors(i.Chain() + [r.op]);
      ChainKept(s, t, r.op, r, i.Chain() + [r.op], i);
    }
  }

  /** Once the proof is durable, each of the other two writes keeps the invariant. */
  lemma CompletionConverges(s: Store, labels: set<Label>)
    requires Inv(s, labels) && s.stable.Some? && s.stable.value.op in s.proofs
    ensures var p := s.proofs[s.stable.value.op];
            && Inv(WithOperation(s, p), labels)
            && Inv(s.(stable := Some(p)), labels)
  {
    var r, i := s.stable.value, s.intent.value;
    var p := s.proofs[r.op];
    var t, u := WithOperation(s, p), s.(stable := Some(p));
    if r.stage == Completed && r.op != i.handoff && Unstarted(s, i) {
      assert r == p;
    } else if i.handoff == r.op && ChainAlong(s, r, i.Chain(), i) {
      EndsOutsideAncestors(i.Chain());
      ChainKept(s, t, r.op, r, i.Chain(), i);
      ChainOfSameOperation(s, u, r, p, i.Chain(), i);
    } else {
      EndsOutsideAncestors(i.Chain() + [r.op]);
      ChainKept(s, t, r.op, r, i.Chain() + [r.op], i);
      ChainOfSameOperation(s, u, r, p, i.Chain() + [r.op], i);
    }
  }

  // ---- Consequences ----

  /** In a chain only the root is a deploy, a resume can only stand right above the root, and
      everything above that is a rollback. */
  lemma {:induction false} ChainShape(s: Store, h: seq<OperationId>, i: Intent, k: nat)
    requires 0 < k < |h| && forall j :: 0 <= j <= k ==> Ancestor(s, h, j, i)
    ensures h[k] in s.operations
    ensures s.operations[h[k]].action == Rollback || (k == 1 && s.operations[h[k]].action == Resume)
  {
    assert Ancestor(s, h, k, i) && Ancestor(s, h, k - 1, i);
    if k > 1 {
      ChainShape(s, h, i, k - 1);
    }
  }
}
