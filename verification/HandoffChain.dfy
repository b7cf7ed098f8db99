/**
 The validator of the supersession chain (`validate_lab_handoff_supersede_chain`) applied to
 the ancestors the physical walk finds, against the chain the invariant describes.
 */
module HandoffChain {
  import opened Basics
  import opened HandoffRecords
  import opened HandoffLineage
  import opened HandoffStore

  /** The stored ancestors of the last operation of `h`, nearest first. */
  ghost function AncestorsAlong(s: Store, h: seq<OperationId>): (a: seq<Record>)
    requires |h| > 0 && forall k :: 0 <= k < |h| - 1 ==> h[k] in s.operations
    ensures |a| == |h| - 1
    ensures forall k :: 0 <= k < |a| ==> a[k] == s.operations[h[|h| - 2 - k]]
  {
    seq(|h| - 1, k requires 0 <= k < |h| - 1 => s.operations[h[|h| - 2 - k]])
  }

  /** Root first, the operations of a record and its ancestors. */
  function Operations(r: Record, ancestors: seq<Record>): (h: seq<OperationId>)
    ensures |h| == |ancestors| + 1
    decreases |ancestors|
  {
    if |ancestors| == 0 then [r.op] else Operations(ancestors[0], ancestors[1..]) + [r.op]
  }

  predicate EdgeValid(newer: Record, older: Record) {
    newer.action != Deploy && newer.supersedes == Some(older.op) && EdgeAllowed(newer.action, older.action)
  }

  predicate EdgesValid(r: Record, ancestors: seq<Record>)
    decreases |ancestors|
  {
    if |ancestors| == 0 then r.action == Deploy && r.supersedes.None?
    else EdgeValid(r, ancestors[0]) && EdgesValid(ancestors[0], ancestors[1..])
  }

  /** What the validator accepts; `proofs` are the completed proofs found beside the ancestors. */
  predicate ChainValid(proofs: map<OperationId, Record>, r: Record, ancestors: seq<Record>, i: Intent) {
    && r.op == i.handoff
    && Operations(r, ancestors) == i.Chain()
    && r.target == i.TargetOf(r.action)
    && (forall a :: a in ancestors ==> a.target == i.TargetOf(a.action))
    && EdgesValid(r, ancestors)
    && (forall a :: a in ancestors && a.op in proofs ==> a.stage == Completed && proofs[a.op] == a)
  }

  lemma {:induction false} OperationsAre(r: Record, ancestors: seq<Record>, k: nat)
    requires k <= |ancestors|
    ensures Operations(r, ancestors)[k] == if k == |ancestors| then r.op else ancestors[|ancestors| - 1 - k].op
    decreases |ancestors|
  {
    if |ancestors| > 0 && k < |ancestors| {
      OperationsAre(ancestors[0], ancestors[1..], k);
    }
  }

  lemma {:induction false} EdgesAlong(r: Record, ancestors: seq<Record>)
    requires Last(r, ancestors).action == Deploy && Last(r, ancestors).supersedes.None?
    requires forall k :: 0 <= k < |ancestors| ==> EdgeValid(Last(r, ancestors[..k]), ancestors[k])
    ensures EdgesValid(r, ancestors)
    decreases |ancestors|
  {
    if |ancestors| > 0 {
      var rest := ancestors[1..];
      assert EdgeValid(Last(r, ancestors[..0]), ancestors[0]);
      forall k | 0 <= k < |rest|
        ensures EdgeValid(Last(ancestors[0], rest[..k]), rest[k])
      {
        assert Last(ancestors[0], rest[..k]) == Last(r, ancestors[..k + 1]);
        assert EdgeValid(Last(r, ancestors[..k + 1]), ancestors[k + 1]);
      }
      EdgesAlong(ancestors[0], rest);
    }
  }

  /** A chain the invariant describes is a lineage of stored records, so the walk finds it. */
  lemma ChainIsLineage(s: Store, labels: set<Label>, r: Record, h: seq<OperationId>, i: Intent)
    requires RecordsOk(s, labels) && ChainAlong(s, r, h, i) && r.WellFormed()
    requires forall k :: 0 <= k < |h| - 1 ==> h[k] in s.operations
    ensures Lineage(s.operations, r, AncestorsAlong(s, h))
    ensures Acyclic(r, AncestorsAlong(s, h))
  {
    var a := AncestorsAlong(s, h);
    forall k | 0 <= k < |a|
      ensures LinkAt(s.operations, Last(r, a[..k]), a[k])
    {
      if k > 0 {
        assert Last(r, a[..k]) == a[k - 1];
        assert Ancestor(s, h, |h| - 1 - k, i);
      }
    }
    if |h| > 1 {
      assert Ancestor(s, h, 0, i);
    }
  }

  lemma ChainOperations(s: Store, labels: set<Label>, r: Record, h: seq<OperationId>, i: Intent)
    requires RecordsOk(s, labels) && ChainAlong(s, r, h, i) && forall k :: 0 <= k < |h| - 1 ==> h[k] in s.operations
    ensures Operations(r, AncestorsAlong(s, h)) == h
  {
    var a := AncestorsAlong(s, h);
    forall k | 0 <= k < |h|
      ensures Operations(r, a)[k] == h[k]
    {
      OperationsAre(r, a, k);
      if k < |a| {
        assert Ancestor(s, h, k, i);
      }
    }
  }

  lemma ChainAncestors(s: Store, labels: set<Label>, r: Record, h: seq<OperationId>, i: Intent, x: Record)
    requires RecordsOk(s, labels) && ChainAlong(s, r, h, i) && forall k :: 0 <= k < |h| - 1 ==> h[k] in s.operations
    requires x in AncestorsAlong(s, h)
    ensures x.target == i.TargetOf(x.action)
    ensures x.op in s.proofs ==> x.stage == Completed && s.proofs[x.op] == x
  {
    var a := AncestorsAlong(s, h);
    var k :| 0 <= k < |a| && a[k] == x;
    assert Ancestor(s, h, |h| - 2 - k, i);
  }

  lemma ChainEdges(s: Store, labels: set<Label>, r: Record, h: seq<OperationId>, i: Intent)
    requires RecordsOk(s, labels) && ChainAlong(s, r, h, i) && r.WellFormed()
    requires forall k :: 0 <= k < |h| - 1 ==> h[k] in s.operations
    ensures EdgesValid(r, AncestorsAlong(s, h))
  {
    var a := AncestorsAlong(s, h);
    forall k | 0 <= k < |a|
      ensures EdgeValid(Last(r, a[..k]), a[k])
    {
      if k > 0 {
        assert Last(r, a[..k]) == a[k - 1];
        assert Ancestor(s, h, |h| - 1 - k, i);
      }
    }
    if |h| > 1 {
      assert Ancestor(s, h, 0, i);
    }
    EdgesAlong(r, a);
  }

  /** In every state the protocol can reach, the validator accepts the walked chain. */
  lemma ChainAccepted(s: Store, labels: set<Label>, r: Record, i: Intent)
    requires RecordsOk(s, labels) && ChainAlong(s, r, i.Chain(), i) && r.WellFormed() && i.handoff == r.op
    requires forall k :: 0 <= k < |i.Chain()| - 1 ==> i.Chain()[k] in s.operations
    ensures ChainValid(s.proofs, r, AncestorsAlong(s, i.Chain()), i)
  {
    ChainOperations(s, labels, r, i.Chain(), i);
    ChainEdges(s, labels, r, i.Chain(), i);
    forall x | x in AncestorsAlong(s, i.Chain())
      ensures x.target == i.TargetOf(x.action)
      ensures x.op in s.proofs ==> x.stage == Completed && s.proofs[x.op] == x
    {
      ChainAncestors(s, labels, r, i.Chain(), i, x);
    }
  }

  lemma ChainStored(s: Store, r: Record, h: seq<OperationId>, i: Intent)
    requires ChainAlong(s, r, h, i)
    ensures forall k :: 0 <= k < |h| - 1 ==> h[k] in s.operations
  {
    forall k | 0 <= k < |h| - 1
      ensures h[k] in s.operations
    {
      assert Ancestor(s, h, k, i);
    }
  }

  lemma ChainWalked(s: Store, labels: set<Label>, r: Record, i: Intent) returns (along: seq<Record>)
    requires RecordsOk(s, labels) && ChainAlong(s, r, i.Chain(), i) && r.WellFormed() && i.handoff == r.op
    ensures Lineage(s.operations, r, along) && Acyclic(r, along) && ChainValid(s.proofs, r, along, i)
  {
    ChainStored(s, r, i.Chain(), i);
    ChainIsLineage(s, labels, r, i.Chain(), i);
    ChainAccepted(s, labels, r, i);
    along := AncestorsAlong(s, i.Chain());
  }

  /** The intent the chain is validated against: the durable one, or its pending rebound. */
  lemma ValidationIntent(s: Store, labels: set<Label>, r: Record, i: Intent) returns (along: seq<Record>)
    requires Inv(s, labels) && s.stable == Some(r) && s.intent == Some(i) && Linked(s, i, r)
    ensures i.handoff != r.op ==> r.supersedes == Some(i.handoff) && i.ReboundTo(r.op).Some?
    ensures Lineage(s.operations, r, along) && Acyclic(r, along)
    ensures ChainValid(s.proofs, r, along, if i.handoff == r.op then i else i.ReboundTo(r.op).value)
  {
    if i.handoff == r.op {
      along := ChainWalked(s, labels, r, i);
    } else {
      IntentRebound(s, labels);
      var j := i.ReboundTo(r.op).value;
      along := ChainWalked(s.(intent := Some(j)), labels, r, j);
    }
  }

  /** `along` is the lineage of `r`, and valid for the intent. */
  ghost predicate ValidLineage(operations: map<OperationId, Record>, proofs: map<OperationId, Record>, r: Record,
      along: seq<Record>, i: Intent)
  {
    Lineage(operations, r, along) && Acyclic(r, along) && ChainValid(proofs, r, along, i)
  }

  lemma LineageUnique(operations: map<OperationId, Record>, r: Record, a: seq<Record>, b: seq<Record>)
    requires Lineage(operations, r, a) && Lineage(operations, r, b)
    ensures a == b
  {
    LinksArePrefix(operations, r, a, b);
    LinksArePrefix(operations, r, b, a);
    assert b[..|b|] == b;
  }

  method WalkAndValidate(operations: map<OperationId, Record>, proofs: map<OperationId, Record>, r: Record,
                         validation: Intent)
    returns (accepted: bool)
    ensures accepted <==> exists along :: ValidLineage(operations, proofs, r, along, validation)
  {
    var ancestors := WalkAncestors(operations, r);
    if ancestors.Err? {
      return false;
    }
    forall along | ValidLineage(operations, proofs, r, along, validation)
      ensures along == ancestors.value
    {
      LineageUnique(operations, r, along, ancestors.value);
    }
    accepted := ChainValid(proofs, r, ancestors.value, validation);
    assert accepted ==> ValidLineage(operations, proofs, r, ancestors.value, validation);
  }

  /** The intent the chain is validated against: the durable one, or what its pending rebound will make
      of it. */
  function ValidationOf(r: Record, intent: Intent): Option<Intent> {
    if r.op == intent.handoff then Some(intent)
    else if r.supersedes == Some(intent.handoff) then intent.ReboundTo(r.op)
    else None
  }

  ghost predicate Acceptable(operations: map<OperationId, Record>, proofs: map<OperationId, Record>, r: Record,
                             intent: Intent) {
    && ValidationOf(r, intent).Some?
    && exists along :: ValidLineage(operations, proofs, r, along, ValidationOf(r, intent).value)
  }

  /** In every state of the protocol the active record's chain is acceptable. */
  lemma ReachableIsAcceptable(s: Store, labels: set<Label>, r: Record, intent: Intent)
    requires Inv(s, labels) && s.stable == Some(r) && s.intent == Some(intent) && Linked(s, intent, r)
    ensures Acceptable(s.operations, s.proofs, r, intent)
  {
    var along := ValidationIntent(s, labels, r, intent);
    assert ValidLineage(s.operations, s.proofs, r, along, ValidationOf(r, intent).value);
  }

  /** `_validate_physical_handoff_chain`: it accepts exactly the acceptable chains, whatever is stored. */
  method ValidatePhysicalChain(operations: map<OperationId, Record>, proofs: map<OperationId, Record>, r: Record,
                               intent: Intent)
    returns (accepted: bool, validation: Intent)
    ensures accepted <==> Acceptable(operations, proofs, r, intent)
    ensures accepted ==> Some(validation) == ValidationOf(r, intent)
  {
    validation := intent;
    if r.op != intent.handoff {
      var rebound := intent.ReboundTo(r.op);
      if r.supersedes != Some(intent.handoff) || rebound.None? {
        return false, intent;
      }
      validation := rebound.value;
    }
    assert ValidationOf(r, intent) == Some(validation);
    accepted := WalkAndValidate(operations, proofs, r, validation);
  }
}
